# Alloyium agent transport: a Dafny model

The path of a bus message to one agent session and of a reply back, with the small indexes and
budgets it depends on. Each module models one component of the repository; classes carry the
components whose methods update fields, and every such method is proved against a specification
function, about which the theorems are stated. Concurrency is modelled at the awaits: an event is a
stretch of code that runs without one, a run is any sequence of events, and a theorem over runs
holds for every interleaving, every reply of the socket, the store or the clock, and every length.

| file | component |
|---|---|
| FrameCodec, FrameDecoder, FrameWriter, FrameTransport | length-prefixed frames, the grow-and-compact decoder, the two-lane writer over short writes, and the three together (uds_frame.ts) |
| Pending, DeliveryChain, DeliveryProgress, DedupWindow | promises under a key, ack-only-after-delivery, and what the dedup window holds back (uds_frame.ts, uds_transport.ts, a2a-channel.ts) |
| Acceptor, AcceptorProgress | phases of one connection, and how it ends (uds_acceptor.ts) |
| Core, CoreProgress | start, stop, adding and removing sessions, and that they come about (a2a_core.ts) |
| McpSession | ordered delivery of channel notifications around initialize (mcp_session.ts) |
| Presence, PresenceProgress | the presence lease of competing instances (presence.ts) |
| Utf8, JsonText, ReplyBody, OutputTransport | byte-budgeted replies and claim-check blobs (output_transport.ts, codex_gateway.ts); UTF-8 after RFC 3629 section 3, JSON text and its reader after RFC 8259 section 7 |
| InboxStore | the inbox table and its keyset pagination (a2a_inbox_store.ts) |
| Canonical, RateLimit, RateGrants | the signed string and the send budget (a2a-channel.ts) |
| ThreadCache | the TTL and LRU thread cache (codex_gateway.ts) |
| Reconciler, ReloadEffects | subscription reload passes (nats-channel.ts) |
| Governor | build routing with latches and breakers (codex_routing_governor.ts) |
| Wrappers, JsText | bytes, Option, Result; numerals, trimming and letter case |

Where the code and what is said about it differ, the model follows the code:

- The comment on byte-safe replies (output_transport.ts:16-17) says a reply is guaranteed to fit. A
  truncated reply fits exactly when the reply with an empty output does (CutFitsIffEmptyFits,
  NoTruncationFitsTinyCap).
- The dedup window (a2a-channel.ts:1618-1622) is to keep the last successes from being injected
  again. An id is recorded only after its inject, and an id the window holds is not renewed, so an id
  that arrives on two subscription loops can succeed twice, be pushed out while it is recent, and be
  injected again (RecentIdInjectedAgain). It holds in every run in which no id arrives on two loops
  (OneSourcePerIdIsEnough), and in any state exactly while no recent id was pushed out
  (RecentAreHeldIff, RecentIsReinjectableIff); the window is the last successes in order exactly as
  long as no success repeats an id it holds (WindowTracksSuccessesIff).
- reload() (nats-channel.ts:312-322) is to have at most one pass queued. A throw is caught in one
  microtask and the pass queued behind it starts in a later one; the catch has cleared its flag. Over
  any run two passes are queued if and only if a reload() falls in between (AtMostOneIsQueuedIff). Only
  code that awaited a pass can call it there (TurnsQueueOne, AwaiterQueuesASecond), and a pass throws
  only over an entry whose id or cursor cannot be written, such as null among the defaults, which are
  seeded unvalidated (PassThrowsIff, WritableSpecsQueueOne).
- The epoch compare in removeSession (a2a_core.ts:468-475) never refuses anything: the lookup before
  it has already matched the epoch (EpochCompareNeverRefuses).
- A maxEntries between 0 and 1 is accepted by the cache's constructor and floors to 0
  (FractionalMaxNeverHits).
- Crossed bounds make a hysteresis latch flip at every call with one and the same signal
  (LatchIsStableIffBandIsNotCrossed).

The table lists the results first, module by module; then what single operations do, where it
follows from one definition or a few; then the methods, each of which is proved to take the step of
the specification function, so that the results hold of it.

## Model

| member | source | states |
|---|---|---|
| `FrameCodec.ParseOfWire` | uds_frame.ts:79-137 | Decoding undoes encoding: the wire form of any list of frames, followed by any bytes, decodes to exactly those frames and then to whatever the following bytes decode to. |
| `FrameCodec.WireOfParse` | uds_frame.ts:79-137 | Encoding undoes decoding: for every byte string the decoded frames re-encode to exactly the bytes consumed, so consumed bytes and unread tail make up the input, also when the loop stops at a protocol error. |
| `FrameCodec.ParseExtends` | uds_frame.ts:111-144 | Decoding a prefix first and the rest later gives what decoding all at once gives; an error once found is neither changed nor outrun by later input. |
| `FrameCodec.ScanHeadOfPartial` | uds_frame.ts:114-126 | No proper prefix of a frame yields a frame or an error. |
| `FrameCodec.RestIsIncomplete` | uds_frame.ts:114-126 | What an error-free decode leaves is one incomplete frame; what a failed one leaves starts with the frame the error names. |
| `FrameCodec.U32Injective` | uds_frame.ts:53-59 | The little-endian length field determines its four bytes. |
| `FrameDecoding.ChunkingIsInvisible` | uds_frame.ts:91-145 | For every cutting of the input into chunks: no error means exactly the frames and the tail of the whole input, an error is the error of the whole input, and what came before it is a prefix of the frames. |
| `FrameDecoding.ErrorIsSticky` | uds_frame.ts:114-137 | After a protocol error every further push raises the same error until finish(). |
| `FrameDecoding.FramesBesideAnErrorAreLost` | uds_frame.ts:111-137 | Complete frames in the chunk in which an error is found are lost with it, while cut before the error they are delivered; the one thing chunking can change. |
| `FrameDecoding.RemainderLiesInChunk` | uds_frame.ts:139-142 | Once a frame was read, the bytes left all belong to the chunk just pushed, so compaction never copies older bytes again. |
| `FrameDecoding.LinearCost` | uds_frame.ts:92-145 | From any state between pushes, an error-free run moves at most 5N + 64 bytes for N input bytes by appending, growing, compacting and slicing together. |
| `FrameDecoding.LinearCostFromStart` | uds_frame.ts:92-145 | The same bound for a fresh decoder and any chunks. |
| `FrameWriting.StepKeepsInv` | uds_frame.ts:375-582 | Every event keeps: accepted bytes are the frames written in full and one partial frame; pendingItems and queuedBytes equal the real remainder and respect highWater and maxBytes; at most one frame per lane is in progress. |
| `FrameWriting.RunKeepsInv` | uds_frame.ts:375-582 | The same for every run of enqueues, socket turns of any size, resumes, drains and closes. |
| `FrameWriting.WrittenInOrder` | uds_frame.ts:489-551 | In each lane the frames written in full are a prefix of the frames enqueued. |
| `FrameWriting.NothingPendingMeansAllWritten` | uds_frame.ts:421-433 | pendingItems is zero in a writer that has not failed only when every enqueued frame was taken by the socket in full. |
| `FrameWriting.EnqueueAcceptsExactly` | uds_frame.ts:435-461 | A frame is queued if and only if the writer has not failed, the payload can be framed and neither limit is in the way; exceeding a limit fails the writer. |
| `FrameWriting.TakingAllWritesAll` | uds_frame.ts:489-551 | From any state in which the pump runs, a socket that takes all it is offered leads to every frame written and every drain() resolved, in finitely many turns. |
| `FrameWriting.ResumingWritesAll` | uds_frame.ts:473-551 | From any state that has not failed, paused or pumping, resume() and a socket that takes all it is offered lead to every frame written and every drain() resolved. |
| `FrameWriting.PausedOffersNothing` | uds_frame.ts:473-551 | After a short write, whatever is enqueued, drained or closed, the socket takes no further byte until resume(). |
| `FrameWriting.FailedIsDead` | uds_frame.ts:413-569 | After a failure or close(), over any run: every enqueue throws, every drain() is rejected and the socket is offered nothing, resumed or not. |
| `FrameWriting.DrainIsHonest` | uds_frame.ts:421-433 | A drain() promise resolves only when every frame enqueued so far is written in full, and rejects only when the writer has failed. |
| `FrameWriting.DrainSettlesOnce` | uds_frame.ts:421-433 | Every drain() call waits or has settled, exactly once. |
| `FrameWriting.StepStartsNoMcp` | uds_frame.ts:493-551 | While a CTRL frame waits, no event starts an MCP frame. |
| `FrameWriting.CtrlIsNotOvertaken` | uds_frame.ts:489-551 | Over any run, until all CTRL frames enqueued at its start are written, the set of MCP frames written or begun does not grow. |
| `FrameTransport.AcceptedParses` | uds_frame.ts:79-145 | In every reachable writer state, what the socket took decodes without error to the frames written in full and one incomplete frame. |
| `FrameTransport.EndToEnd` | uds_frame.ts:79-551 | Writer, socket and decoder together: for any run of the writer and any re-chunking, the decoder never errs, delivers a prefix of the frames written and, in each lane, a prefix of the payloads enqueued; with all bytes read it holds exactly the frame in flight. |
| `FrameTransport.DrainedMeansDelivered` | uds_frame.ts:421-433 | When drain() has nothing to wait for, a receiver that has read the wire has every payload of both lanes. |
| `Pending.FireKeeps` | uds_frame.ts:204-210 | An armed timer finds its own promise, never a later one under the same key. |
| `DeliveryChain.NextKeepsInv` | a2a-channel.ts:1468-1574 | Every action of socket, session, timers and teardown keeps the books of receiver, pending map and calls consistent. |
| `DeliveryChain.RunKeepsInv` | a2a-channel.ts:1468-1574 | The same for every run. |
| `DeliveryChain.AckedMeansDelivered` | a2a-channel.ts:1468-1474 | On a delivery-capable session a direct message is acked without a drop reason only after an ok delivered frame with its id and this epoch resolved the promise of this very call, which no other call holds. |
| `DeliveryChain.DeliveredLeadsToAck` | a2a-channel.ts:1551-1554 | A waiting call whose frame comes in with its id and epoch is acked next, and its id remembered. |
| `DeliveryChain.GivingUpLeadsToNak` | uds_transport.ts:88-107 | A waiting call whose timer fires first, or whose connection is torn down first, is naked. |
| `DeliveryProgress.GoodMessageIsAcked` | a2a-channel.ts:1468-1554 | A direct message on a confirming session that passes the checks, with room in the table and its id free, is stored, attempted, registered, confirmed by its frame and acked, and its id is a success. |
| `DeliveryProgress.InjectRegistersExactly` | uds_transport.ts:64-108 | A confirming inject registers a promise under the id and goes on exactly while there is room, the id is free and the frame can be enqueued; otherwise it naks and the waiting promises are as they were. |
| `DeliveryProgress.OneLoopForEachSource` | a2a-channel.ts:1076-1088 | In every run there is at most one open subscription loop for the inbox and for each topic. |
| `DeliveryChain.InflightIsBounded` | uds_transport.ts:64-108 | Waiting deliveries never exceed maxInflight, and each promise either waits or has settled. |
| `DeliveryChain.SettlementsAreFinal` | uds_frame.ts:187-253 | No action changes how a promise settled, whichever of frame, timer and teardown came first. |
| `DeliveryChain.AttemptIsAdmissible` | a2a-channel.ts:1495-1559 | inject is attempted only for a verified message, in time, not our own, addressed to where it arrived, with an id that is none of the last dedupLru to have entered the window; a direct one is in the inbox store before. |
| `DeliveryChain.OutcomesAreFinal` | a2a-channel.ts:1468-1478 | A call that has acked or naked stays so. |
| `DedupWindow.OneSourcePerIdIsEnough` | a2a-channel.ts:1468-1487 | In every run in which no id arrives on two subscription loops (the inbox and a topic, two topics, or a topic left and joined again), no id among the last dedupLru successful injects is injected again, with each loop awaiting its message before it takes the next. |
| `DedupWindow.RecentIsNotInjectedAgain` | a2a-channel.ts:1510-1559 | The same of every run in which no loop takes a message whose id another call has in flight. |
| `DedupWindow.SourcesApartRunApart` | a2a-channel.ts:1468-1487 | Since a loop has one call in flight, runs without an id on two loops have no id in flight twice. |
| `DedupWindow.ApartRunsStayFresh` | a2a-channel.ts:1510-1553 | In such a run no call being injected has its id in the window, and no success is for an id the window holds. |
| `DedupWindow.WindowIsOfSuccesses` | a2a-channel.ts:1551-1554 | In every run the window, its order and its set, is what recordDedup makes of the ids whose inject has resolved, in order. |
| `DedupWindow.WindowTracksSuccessesIff` | a2a-channel.ts:1618-1622 | After every success the window has been exactly the last dedupLru successes, in order, if and only if no success was for an id the window held, or the window has one place. |
| `DedupWindow.RecentAreHeldIff` | a2a-channel.ts:1618-1622 | After every success the window has held every id of the last dedupLru successes if and only if no success pushed out an id that succeeded again within the last dedupLru - 1. |
| `DedupWindow.RecentIsReinjectableIff` | a2a-channel.ts:1495-1559 | In any state of any run: some messages lead to another inject of an id among the last dedupLru successes, before anything else succeeds, if and only if the window does not hold all of them. |
| `DedupWindow.DroppedIsReinjected` | a2a-channel.ts:1495-1559 | A recent id that was pushed out is injected again by the next message that bears it, on a topic newly joined. |
| `DedupWindow.NeverDroppedIsNotReinjected` | a2a-channel.ts:1495-1559 | In a run in which no success pushed out a recent id, none is injected again. |
| `DedupWindow.RecentIdInjectedAgain` | a2a-channel.ts:1495-1622 | The condition is needed: with a window of two, an id that comes on the inbox and on a topic at once succeeds twice, with another between, is pushed out by the next success, and is injected again although it is among the last two. |
| `Acceptor.NextKeepsInv` | uds_acceptor.ts:227-441 | Every event of the connection keeps its books, in any interleaving at the awaits. |
| `Acceptor.FedIsPrefixOfArrivals` | uds_acceptor.ts:343-353 | The MCP payloads handed to the transport are a prefix of the arrivals, in order, and all of them while in session: none lost or repeated where buffering hands over to live feeding. |
| `Acceptor.PreSessionBuffersAreBounded` | uds_acceptor.ts:48-52 | The hello queue, the buffered frames and the buffered bytes stay within their three caps. |
| `Acceptor.OkFollowsAdd` | uds_acceptor.ts:311-339 | {t:ok} is sent at most once, and only in the event in which the session was added on a connection still open. |
| `Acceptor.GoodHelloLeadsToSession` | uds_acceptor.ts:268-354 | A good hello, a successful add and the flush lead to the session, with every payload that arrived on the way fed and ok sent once. |
| `Acceptor.AddedIsRemovedExactlyOnce` | uds_acceptor.ts:227-266 | Once run() and teardown() are past their awaits, every session this connection added was removed exactly once, under its own agent id and epoch, also when teardown raced the add; while open none was. |
| `Acceptor.ClosedStaysClosed` | uds_acceptor.ts:364-366 | No event reopens a closed connection or feeds its transport. |
| `Acceptor.HellosComeInOrder` | uds_acceptor.ts:443-452 | In every run runHello gets the messages let in, in the order of their arrival, each once, and a read that finds one waiting gets it. |
| `AcceptorProgress.TeardownComesToAnEnd` | uds_acceptor.ts:232-263 | teardown() ends after its yield, the transport's close if there is one and the removal of the session if it holds one, with buffer and waiting readers dropped. |
| `AcceptorProgress.EndedConnectionLeavesNothing` | uds_acceptor.ts:232-316 | So once run() has ended too, what was added has been removed. |
| `AcceptorProgress.RunComesToAnEnd` | uds_acceptor.ts:268-354 | Each await of run() that settles brings it nearer to its end, at most three in all, and nothing else moves it. |
| `AcceptorProgress.BadHelloCloses` | uds_acceptor.ts:280-293 | A hello that fails or is incomplete ends in a closed connection, after the flush of its error, with nothing added or fed. |
| `AcceptorProgress.BadAddCloses` | uds_acceptor.ts:318-336 | An add that fails, or whose reply cannot be sent, ends in a closed connection with {t:ok} unsent and nothing fed; a session that was added is held for the teardown. |
| `AcceptorProgress.LateAddIsRemoved` | uds_acceptor.ts:318-325 | An add that settles after the close is undone: the session is removed under its own key. |
| `CoreLifecycle.NextKeepsInv` | a2a_core.ts:276-576 | Every event keeps the lifecycle invariant: keys, channels, connections and stages; an event is a stretch between awaits, so this covers every interleaving. |
| `CoreLifecycle.RunKeepsInv` | a2a_core.ts:276-576 | The same for every run of start, stop, adds and removals. |
| `CoreLifecycle.OneOwnerPerAgent` | a2a_core.ts:219-224 | At most one owning (not tool-only) session per agent id, though the check and the insert are separated by awaits. |
| `CoreLifecycle.AddSettlesOkExactly` | a2a_core.ts:445-459 | An add whose awaits went well inserts its session, under its key, if and only if the core is up and the id (tool-only: the key) is still free; otherwise it rolls back and the map is as it was. |
| `CoreLifecycle.EveryStartedChannelIsKept` | a2a_core.ts:371-459 | A channel that started is in the map, in flight, being removed, or stopped: none is forgotten. |
| `CoreLifecycle.StoppedStaysShut` | a2a_core.ts:541-546 | Once stopping is latched it stays, and over any further run every session in the map was there before: nothing is inserted. |
| `CoreLifecycle.SessionsLeaveByName` | a2a_core.ts:464-483 | A session leaves the map only by a removal of its own id (or key) and, if the removal carries an epoch, of that epoch; or at the end of stop(), with its channel stopped. |
| `CoreLifecycle.RemovalFindsItsOwn` | a2a_core.ts:230-239 | While one session has the agent and the epoch, a removal that carries them takes out exactly that one. |
| `CoreLifecycle.StoppedHasReleasedAll` | a2a_core.ts:548-576 | When stop() has ended the map and pool are empty, every connection ever opened was drained exactly once, every add has settled, and once the removals have too every started channel is stopped. |
| `CoreLifecycle.FailedStartHasDrainedAll` | a2a_core.ts:317-328 | Whenever no start is in progress or succeeded, also after any number of failed starts, the pool is empty and every connection opened was drained exactly once. |
| `CoreLifecycle.StopFinishes` | a2a_core.ts:548-576 | Once the pending start and adds have settled, finitely many of its awaits bring stop() to its end. |
| `CoreProgress.StartBringsUp` | a2a_core.ts:276-316 | After a start() with none under way and no stop(), whatever adds and removals go on meanwhile: the core is up exactly from the last of the start's awaits on (three with one connection, four with two, five with three), and at each stage the three pool fields are as natsPoolSize says: all different, publish shared with control, or all one. |
| `CoreProgress.FailedStartCanBeRetried` | a2a_core.ts:317-328 | A start that fails at any await comes to its end after the presence and one await for each connection it opened, each drained once, with nothing left: start() can be called again. |
| `CoreProgress.FreeIdIsAdded` | a2a_core.ts:336-459 | On a core that is up, an add of a valid free id whose awaits succeed ends with its session at the end of the map, its channel started, and the call no longer in flight. |
| `CoreProgress.RefusedAddIsRolledBack` | a2a_core.ts:378-456 | An add that fails at the connect, or finds the core down or its id taken, stops its channel, settles as refused and leaves the map as it was. |
| `CoreProgress.RemovalByIdTakesOne` | a2a_core.ts:230-244 | A removal without an epoch takes the session under that key, else the first of that agent, and stops its channel. |
| `CoreProgress.StopIsCarriedOut` | a2a_core.ts:541-576 | stop() latches at once; with no start or add pending finitely many awaits end it, with no session and no connection left. |
| `McpSession.NextKeepsInv` | mcp_session.ts:65-124 | Every event keeps: attempted and waiting calls form one line in call order holding exactly the calls not refused; only the head of the chain runs; outcomes are those of the injects. |
| `McpSession.AttemptsFollowCallOrder` | mcp_session.ts:73-112 | Injects are attempted in call order across the buffered, flushed and live calls, and no call that was not refused is passed over. |
| `McpSession.NeverTwoAtOnce` | mcp_session.ts:76-112 | At no time are two injects under way. |
| `McpSession.OutcomesAreHonest` | mcp_session.ts:70-120 | A caller hears success if and only if its own inject resolved, and an inject failure if and only if its own inject failed; a refused call is never attempted. |
| `McpSession.OneFailureRejectsOneCaller` | mcp_session.ts:81-112 | An inject that ends settles its own caller, who had no outcome before, and changes nothing else that waits. |
| `McpSession.OutcomesAreFinal` | mcp_session.ts:78-124 | No outcome is ever replaced. |
| `McpSession.CloseRejectsTheBuffered` | mcp_session.ts:93-99 | Closing before initialize rejects exactly the buffered calls; after initialize it changes nothing. |
| `McpSession.WaitingCallsAreServed` | mcp_session.ts:76-112 | While every inject resolves, the chain comes to its end in finitely many steps with every call on it attempted, in order. |
| `McpSession.InitializeLetsOut` | mcp_session.ts:78-112 | From any state, after initialize and with injects that resolve, every buffered and waiting call goes out in call order and nothing is buffered any more. |
| `Presence.NextKeepsInv` | presence.ts:92-195 | Every step of any number of claimers, the store and the clock keeps: a claimer not yet stopped whose record was armed holds the key until a TTL has passed. |
| `Presence.OthersRecordIsSpared` | presence.ts:32-38 | No command overwrites or deletes a live record bearing another token; EXPIRE alone may extend it. |
| `Presence.LiveRecordsAreSafe` | presence.ts:117-195 | In any step a live record stays live under its token until its time runs out or its own stopped claimer's release is executed, also by requests that arrive after their caller gave up. |
| `Presence.TwoOwnersMeansOneLapsed` | presence.ts:92-92 | Two claimers report ownership at once only when a full TTL has passed since the store last armed the record of one of them. |
| `Presence.TwoOwnersCanBe` | presence.ts:127-195 | Such a run exists for every TTL: the condition cannot be dropped. |
| `Presence.StoppedLeavesNoGhost` | presence.ts:108-158 | After stop() and the end of the claimer's own calls the key does not bear its token, if none of its own requests was lost; whatever the other claimers lose. |
| `Presence.NextKeepsReleaseOwed` | presence.ts:108-158 | A live record of a stopped claimer, none of whose requests was lost, always has a call bound to release it. |
| `Presence.FailedHeartbeatFailsClosed` | presence.ts:185-194 | A failed heartbeat ends ownership if and only if a TTL has passed since the last confirmation. |
| `Presence.StaleKeyIsReclaimed` | presence.ts:94-170 | A claimer without the key takes it once the predecessor's record has run out, if its request is executed first. |
| `PresenceProgress.HeartbeatDecides` | presence.ts:167-187 | A tick of an owner, answered at once: it goes on owning exactly if the record still bears its token, then armed anew; else it gives up and leaves the store alone. |
| `PresenceProgress.OwnRecordIsReclaimed` | presence.ts:117-158 | A claimer that finds its own record, as after a lost reply, owns again after the claim, the look and the renewal. |
| `PresenceProgress.OthersRecordIsLeft` | presence.ts:117-143 | One that finds another's record, or a foreign one, leaves it alone and does not own. |
| `Utf8.DecodeOfEncode` | output_transport.ts:47-47 | RFC 3629 section 3: every string is recovered from its bytes. |
| `Utf8.EncodeOfDecode` | output_transport.ts:47-47 | Every accepted byte sequence is the one encoding of its string. |
| `Utf8.HeadIsExact` | output_transport.ts:55-67 | A prefix is within the budget if and only if it is no longer than the head. |
| `Utf8.HeadGrows` | output_transport.ts:55-67 | A larger budget extends the head. |
| `Utf8.ByteKinds` | output_transport.ts:58-63 | A byte is a continuation byte if and only if it is not the first of its character: what the backing-off loop tests. |
| `Utf8.TruncateToBytes` | output_transport.ts:55-67 | The loop that backs off over continuation bytes computes the longest whole-character prefix within the budget. |
| `Utf8.TruncationIsTight` | output_transport.ts:55-67 | The result is a prefix of whole characters within the budget, none longer fits, and a cut text falls short of a positive budget by at most three bytes. |
| `ReplyBody.BodyBytesSplit` | output_transport.ts:193-195 | The bytes of a JSON body are those around the text plus the cost of the text. |
| `ReplyBody.TextCostAppend` | output_transport.ts:193-195 | The cost of the text is additive over its characters. |
| `ReplyBody.OverheadNoWider` | output_transport.ts:197-206 | Replacing the sentinels by members no wider never makes a body longer. |
| `OutputTransport.PreviewAntitone` | output_transport.ts:230-240 | If a preview fits, every shorter one does: the searched predicate is monotone. |
| `OutputTransport.FitPreview` | output_transport.ts:230-240 | The binary search returns the largest preview that fits, or none when not even the empty one does. |
| `OutputTransport.FitTruncate` | output_transport.ts:243-254 | The binary search returns the longest cut whose body fits, its counts those of the text. |
| `OutputTransport.PlanReply` | output_transport.ts:217-225 | Inline if and only if the full text fits; a claim-check plan fits with every reference no wider than the sentinels; a truncation only when not even an empty preview fits. |
| `OutputTransport.CutFitsIffEmptyFits` | output_transport.ts:243-254 | A truncated reply fits if and only if the reply with an empty output does. |
| `OutputTransport.NoTruncationFitsTinyCap` | output_transport.ts:243-254 | So no truncation fits a cap below the fixed members of the body. |
| `OutputTransport.RealReferenceIsNoWider` | output_transport.ts:197-206 | Every reference putBlob can return, for a text below ten billion bytes, is no wider than the sentinels. |
| `OutputTransport.PutBlob` | output_transport.ts:90-107 | Over the outcomes of the two SETs: it throws if and only if a SET that it sends fails or both keys are taken; otherwise the returned reference names the first free key, which now holds the text until its TTL, with its digest and length. No live blob is changed. |
| `OutputTransport.VerifiedIsOriginal` | output_transport.ts:110-119 | With a collision-free digest, a text that passes the check is the text that was put. |
| `OutputTransport.CompletedReply` | codex_gateway.ts:1185-1205 | The reply is the text itself if and only if that fits; it is cut if and only if it does not fit and not even an empty preview does or the put failed; otherwise it refers to a live blob of the text, with the largest preview. Unless cut it is within the cap, and if cut it is the longest cut, within the cap if and only if the empty one is. |
| `JsonText.ReadOfEscape` | output_transport.ts:193-195 | RFC 8259 section 7: unescaping an escaped text up to the closing quotation mark gives the text back, for every text and whatever follows. |
| `JsonText.ReadOfText` | output_transport.ts:193-195 | Reading the compact text of a value gives back the value and leaves what follows, for every nesting of strings, whole numbers, booleans, lists and objects. |
| `JsonText.ParseOfText` | output_transport.ts:193-195 | So JSON.parse undoes JSON.stringify on all of them. |
| `JsonText.EscapeIsShortest` | output_transport.ts:193-195 | RFC 8259 section 7: of all legal spellings of a character within a string the shortest is written, in lower case. |
| `ReplyBody.ReplyBodyParses` | output_transport.ts:187-195 | The reply body whose bytes are counted parses to the members that were wrapped: the others, the output, the extra ones. |
| `ReplyBody.FieldsOfReply` | output_transport.ts:147-153 | A parsed reply has the output that was assembled, and a result_ref only where one was spread. |
| `ReplyBody.InputBodyParses` | output_transport.ts:187-195 | The job body parses to the members that were wrapped, the prompt as the text of its one input. |
| `ReplyBody.FieldsOfInput` | output_transport.ts:167-179 | A parsed job has that input, and an input_ref only where one was spread. |
| `OutputTransport.ReplyRoundTrip` | output_transport.ts:147-161 | From body to text: while the blob lives, the receiver that parses the body and resolves its fields recovers the full output of every reply not marked truncated, and the cut of one that is. |
| `OutputTransport.BuildClaimCheckedInput` | output_transport.ts:276-305 | A returned body is within the cap and carries the prompt, inline if and only if the prompt fits, else by reference with the largest preview; each of the three errors comes if and only if its condition holds: too large, the put failed, or not even the bare reference fits. |
| `OutputTransport.InputRoundTrip` | output_transport.ts:167-185 | From body to prompt: while the blob lives, the gateway that parses the job body recovers the exact prompt of a claim-checked input and the trimmed prompt of an inline one. |
| `OutputTransport.MissedReplyIsItsPreview` | output_transport.ts:147-153 | When the blob has expired, cannot be read or is another text, the receiver that parses the body gets the marked preview. |
| `OutputTransport.MissedInputIsItsPreview` | output_transport.ts:167-185 | Likewise the gateway gets the trimmed preview of the prompt. |
| `InboxStore.ListingMeans` | a2a_inbox_store.ts:168-198 | A query returns every row that passes the filters and the cursor, and no other, strictly descending in (delivered_at, env_id). |
| `InboxStore.PageOpensListing` | a2a_inbox_store.ts:190-204 | A page is the first rows of the listing, and its cursor continues it exactly: the listing behind the cursor is the rest. |
| `InboxStore.PagesMakeTheListing` | a2a_inbox_store.ts:168-204 | Following nextCursor ends, and the pages put together are the whole listing, for every limit. |
| `InboxStore.WalkNeverRepeats` | a2a_inbox_store.ts:168-204 | However the table changes between fetches, the rows returned stay strictly descending, so none comes twice. |
| `InboxStore.WalkMissesNoSteadyRow` | a2a_inbox_store.ts:168-204 | A row that passed the filters in every table fetched from is among those returned when the walk ends. |
| `InboxStore.AckTwiceIsAckOnce` | a2a_inbox_store.ts:213-221 | The first acknowledgement decides handled_at, a second changes nothing, and no row changes its place in the listings. |
| `InboxStore.ListingIsWhatIsWanted` | a2a_inbox_store.ts:168-198 | Field by field: a listing holds exactly the rows of the recipient with the handled flag, sender, thread and earliest ts asked for, older than the cursor's row, newest first by delivered_at and then env_id; an empty filter and a text that is no cursor are ignored. |
| `InboxStore.AckMovesBetweenListings` | a2a_inbox_store.ts:213-221 | An acknowledged row leaves the listing of unhandled rows and joins that of handled ones. |
| `Canonical.TwoPassesAreOne` | a2a-channel.ts:186-186 | Escaping backslashes, then bars, in two passes is escaping each character once. |
| `Canonical.SplitOfJoin` | a2a-channel.ts:187-199 | A splitter on unescaped bars recovers exactly the fields that were joined. |
| `Canonical.CanonicalIsUniquelyReadable` | a2a-channel.ts:181-199 | Two envelopes have equal canonical strings if and only if v, id, from, to, type, ts, body and ttl_ms agree and corr agrees up to absent versus empty. |
| `JsText.IntTextInjective` | a2a-channel.ts:189-197 | Different integers are written differently. |
| `JsText.NormalizedEqualIffAgree` | codex_routing_governor.ts:278-280 | Trimmed and in lower case two texts are equal if and only if they agree but for white space around them and the case of their letters. |
| `Canonical.CanonicalIs` | a2a-channel.ts:186-199 | The string is the nine fields in their fixed order with bars between them, each with a backslash before every backslash and bar. |
| `ThreadCache.GetIsHonest` | codex_gateway.ts:181-193 | In every run get returns an id only if its key was last set to it under exactly that sandbox and cwd and last used within the TTL; and it does return it when, besides, fewer than maxEntries other keys were touched since. |
| `ThreadCache.SizeIsBounded` | codex_gateway.ts:168-178 | The cache never holds more than maxEntries. |
| `ThreadCache.OrderIsRecency` | codex_gateway.ts:168-203 | The map order is the order of last use: every later entry was touched after every earlier one. |
| `ThreadCache.NextKeepsInv` | codex_gateway.ts:168-214 | Every operation keeps: entries agree with the history, and what was dropped had expired or had maxEntries other keys touched after it. |
| `ThreadCache.FractionalMaxNeverHits` | codex_gateway.ts:162-162 | A maxEntries between 0 and 1 passes the constructor's check and floors to a cache that never hits. |
| `RateLimit.RefusalIsFreeGrantCostsOne` | a2a-channel.ts:1045-1047 | A refusal consumes from neither bucket, a grant exactly one token from both. |
| `RateLimit.SendChanges` | a2a-channel.ts:1037-1048 | A send is granted if and only if both buckets hold a token when peeked; no other recipient's bucket changes, save that the oldest may be evicted. |
| `RateLimit.WindowIsBounded` | a2a-channel.ts:1037-1048 | In any stretch of a run within a window of length T the channel is granted at most ratePerMin + T * ratePerMin / 60000 sends. |
| `RateLimit.PeerWindowIsBounded` | a2a-channel.ts:1037-1048 | The same per recipient, while its bucket is not evicted. |
| `RateGrants.SpacedSendsAreGranted` | a2a-channel.ts:1037-1048 | Sends that come 60000 / rate ms or more after one another, for the smaller of the two rates, are never refused, whatever went before and whoever they go to. |
| `RateGrants.FirstSendsAreGranted` | a2a-channel.ts:1037-1048 | From the start the first sends are granted up to the smaller of the two rates, however fast they come: the burst the bound of a window allows. |
| `RateLimit.RunsAreValid` | a2a-channel.ts:1037-1048 | The states these bounds are about are those of every run from the start. |
| `Governor.OpenBreakerIsNotSelected` | codex_routing_governor.ts:120-189 | No decision selects a provider whose breaker is open, nor codex while its budget or secondary signal is high. |
| `Governor.ReservedNeverGoesToCodex` | codex_routing_governor.ts:160-166 | A role that agrees with a reserved one up to white space and case, and a build on protected paths, goes to claude, or to the queue exactly while its breaker is open. |
| `Governor.PressureDecides` | codex_routing_governor.ts:168-189 | For other builds the pressures decide: both queue the build, one sends it to the other provider, and only with neither do the peak window and the fit choose. |
| `Governor.ReserveRoleIff` | codex_routing_governor.ts:272-280 | A role is reserved if and only if it is not blank and agrees with an entry of claudeReserveRoles up to surrounding white space and the case of letters. |
| `Governor.LatchIsStableIffBandIsNotCrossed` | codex_routing_governor.ts:260-263 | A repeated signal leaves the latch where it is, for every signal, if and only if the bounds are not crossed. |
| `Governor.LatchesRememberTheLastExcursion` | codex_routing_governor.ts:107-118 | Over every run each latch is on the side where its signal last left the band. |
| `Governor.OpenIffRecentStreak` | codex_routing_governor.ts:197-231 | Over every run a breaker is open if and only if the failures since the last ok have reached the threshold and the last was less than a cooldown ago; so one failure after the cooldown reopens it. |
| `Governor.TrippedProviderIsNotSelected` | codex_routing_governor.ts:107-231 | After that many failures the provider is not selected until the cooldown ends or an ok is recorded. |
| `Reconciler.CleanIffAllUsable` | nats-channel.ts:161-191 | No spec is rejected if and only if every one is well formed and no two take one stream:durable; then all are kept, in order. |
| `Reconciler.ValidSharesNoCursor` | nats-channel.ts:161-191 | The specs kept were all listed and acceptable, and no two share a cursor. |
| `Reconciler.ValidateSpecs` | nats-channel.ts:161-191 | The loop with its set keeps those specs and counts the others, or throws if and only if the cursor of an otherwise acceptable entry cannot be written. |
| `Reconciler.PassesNeverOverlap` | nats-channel.ts:312-322 | At most one pass has started and not ended, and it is the head of the chain. |
| `Reconciler.ReloadIsFollowedByAPass` | nats-channel.ts:312-322 | After every reload(), in every endless run in which what the head of the chain awaits settles sooner or later while a pass is queued, a pass starts: whatever reload() calls, throws and dying loops come in between. |
| `Reconciler.EveryReloadIsServed` | nats-channel.ts:312-322 | After a reload(), until a pass has started one is still queued: no nudge is lost. |
| `Reconciler.AtMostOneIsQueuedIff` | nats-channel.ts:312-322 | Over any run at most one pass is queued at all times if and only if no reload() falls between the catch of a throw that came with a pass queued and the start of that pass. |
| `Reconciler.PassThrowsIff` | nats-channel.ts:283-338 | A pass throws exactly when its load ends with an entry whose id or cursor cannot be written: a default, null or not, when the key was absent and nothing ever loaded, or an entry that validation would accept. No other step throws. |
| `Reconciler.LoadedFailsIff` | nats-channel.ts:283-338 | The same of loadSpecs and idOf together, over validation, its early throw and the flag set in between. |
| `Reconciler.GoodLoadIsUsed` | nats-channel.ts:283-310 | A load that does not throw seeds every default, clean, when the key was absent and nothing ever loaded; takes of a list what is valid, clean exactly when all of it was usable and no two share a cursor; otherwise keeps what is. |
| `Reconciler.WritableSpecsQueueOne` | nats-channel.ts:312-338 | So in every run in which all defaults and all acceptable entries loaded can be written, nothing throws and at most one pass is queued. |
| `Reconciler.TurnsQueueOne` | nats-channel.ts:312-322 | And in every run in which each reload() comes in a turn of its own of the event loop, as from a timer or a message, whatever throws. |
| `Reconciler.AwaiterQueuesASecond` | nats-channel.ts:297-338 | The condition is needed: with a null among the defaults the first pass throws while a second is queued, and a caller that awaited the first and calls reload() at once queues a third. |
| `Reconciler.PassEndsReconciled` | nats-channel.ts:324-360 | When a pass ends whose load and subscribes succeeded and during which no loop died, the active ids and specs are exactly the wanted ones. |
| `ReloadEffects.UnchangedKeepsItsObject` | nats-channel.ts:341-360 | From the load of a pass until the next one starts, a subscription wanted with the spec it has stays active as the same object, unless its own loop dies. |
| `ReloadEffects.SubscribeDecides` | nats-channel.ts:362-375 | A subscribe that succeeds leaves the new object active under its id; one that fails leaves the id out. |
| `ReloadEffects.NumbersTellApart` | nats-channel.ts:440-449 | In every run no two subscription objects share a number, nor does the one being made, so the compare by object is sound. |
| `Reconciler.NextKeepsPass` | nats-channel.ts:324-360 | In general, at a pass's end every active id is wanted with the wanted spec, and every wanted id is active unless its subscribe failed or its loop died meanwhile. |
| `Reconciler.DesiredIsLastListed` | nats-channel.ts:338-338 | The wanted spec of an id is the last one listed under it. |
| `Reconciler.DeletionsNeedACleanLoad` | nats-channel.ts:333-343 | In every run a durable is deleted only by a pass whose load rejected no spec and did not want that subscription, and only with deleteOnDrop. |
| `ReloadEffects.DeletionComesFromAnUntouchedList` | nats-channel.ts:333-343 | In every run, back to the load itself: a durable is deleted only by a pass that seeded the defaults or found a list in which every entry was usable, no two shared a cursor and none had that id. |
| `Reconciler.EndedPassDeletedTheCondemned` | nats-channel.ts:341-343 | A pass that comes to its end has deleted exactly the durables of the JetStream subscriptions that were active at its load and not wanted, if the load was clean and deleteOnDrop is set. |
| `Reconciler.FailedLoadKeepsSubscriptions` | nats-channel.ts:283-338 | A load that fails, finds the key gone after it was once loaded, or throws changes no subscription and deletes no durable; everLoaded changes only as the key was absent. |
| `Reconciler.PassComesToAnEnd` | nats-channel.ts:341-359 | Every await that settles brings a pass nearer to its end. |
| `FrameCodec.WireBytes` | uds_frame.ts:79-90 | The bytes of a frame: the length of type and payload in four bytes, least significant first, then 1 for MCP and 2 for CTRL, then the payload. |
| `FrameCodec.FramesExactly` | uds_frame.ts:79-90 | A payload is framed up to 16 MiB less one byte under type 1 or 2; a longer one, or another type, is refused by name. |
| `FrameWriting.ShortWritePauses` | uds_frame.ts:533-537 | A turn in which the socket takes less than it is offered pauses the writer. |
| `FrameWriting.CountsAreTaken` | uds_frame.ts:519-551 | Of the unit offered exactly as many bytes are taken as the socket says, from none to all; any other answer fails the writer, with nothing taken. |
| `FrameWriting.CloseFails` | uds_frame.ts:485-487 | close() rejects every drain() that waits and fails the writer. |
| `Pending.RegisterKeeps` | uds_frame.ts:194-214 | A key that waits is refused; a new promise changes no other, and each promise waits under its own key or has settled. |
| `Pending.SettleKeeps` | uds_frame.ts:216-238 | resolve and reject settle exactly the promise of the key, if there is one, and say whether there was. |
| `Pending.AllRejectedKeeps` | uds_frame.ts:240-248 | rejectAll leaves no entry and rejects just those that waited. |
| `DeliveryProgress.FrameSettlesExactly` | uds_transport.ts:188-225 | A delivered frame settles a promise exactly when it bears the id of one that waits, of 1 to 128 characters, this epoch and an ok status; any other changes nothing. |
| `DeliveryProgress.FailedDrainNaks` | uds_transport.ts:88-107 | A drain that fails naks the call, whose promise no longer waits. |
| `DeliveryProgress.PassedIsAttempted` | a2a-channel.ts:1495-1559 | A message that passes is attempted, a direct one once it is stored, and naked if it cannot be; one that does not pass is acked with nothing else done. |
| `DeliveryProgress.DropNamesTheFirstFailure` | a2a-channel.ts:1503-1540 | A dropped message names the first check that fails, in the order of the code. |
| `DeliveryChain.DropsAreNamed` | a2a-channel.ts:1497-1540 | A message passes every check if and only if no drop reason applies. |
| `Acceptor.McpIsBufferedExactly` | uds_acceptor.ts:421-438 | Before the session an MCP frame is buffered and the connection stays open exactly while fewer than 16 wait and the bytes with it are at most 1 MiB; in the session it is fed at once. |
| `Acceptor.CtrlIsLetInExactly` | uds_acceptor.ts:367-392 | During the hello eight pings are answered, and a message is let in exactly while fewer than eight wait; a waiting reader gets it at once. |
| `CoreLifecycle.RemovalRespectsEpoch` | a2a_core.ts:464-476 | A removal carrying an epoch takes out at most one session, of that agent and that epoch, and leaves the others as they are. |
| `CoreLifecycle.EpochCompareNeverRefuses` | a2a_core.ts:464-475 | The epoch compare after the lookup never refuses: a lookup with an epoch finds only that epoch. |
| `CoreProgress.OwnedIdIsRefused` | a2a_core.ts:336-350 | While the core is not up, or an owning session has the id, an add is refused at once and touches nothing. |
| `McpSession.CallsAreTakenExactly` | mcp_session.ts:102-122 | A call is refused exactly when the session has not initialized and the buffer is full; any other joins the end of the line. |
| `PresenceProgress.ExpireIsByKey` | presence.ts:117-158 | EXPIRE goes by the key: executed after the record has passed to another claimer, it extends that one's record. |
| `PresenceProgress.StopReleases` | presence.ts:108-113 | stop() disowns before anything is sent, and its release takes away exactly the record bearing the token. |
| `PresenceProgress.ConfirmationOwns` | presence.ts:153-187 | Each reply that confirms the record makes a started claimer the owner as of that instant; to a stopped one it brings the release. |
| `PresenceProgress.DenialDisowns` | presence.ts:133-187 | Each reply that denies it ends the ownership. |
| `PresenceProgress.FailedClaimDisowns` | presence.ts:144-152 | A claim that fails ends the ownership; a release that fails changes nothing. |
| `JsonText.TextOfSample` | output_transport.ts:193-195 | The layout on a sample: no white space, members in order. |
| `ReplyBody.ExtrasAreMarked` | output_transport.ts:197-206 | A claim-check says that it is a preview and not truncated, a cut that it is truncated, a claim-checked input that it is a preview, and nothing else does. |
| `ReplyBody.SizesAreNamed` | output_transport.ts:243-254 | A cut names both sizes, a claim-check its encoding and its end. |
| `OutputTransport.PutFailsOnlyThen` | output_transport.ts:90-107 | A store that answers fails a put only over two taken keys, and a free first key only over its own SET. |
| `OutputTransport.JoinSnoc` | output_transport.ts:172-173 | Several inputs are put together line by line. |
| `OutputTransport.MissIsNamed` | output_transport.ts:110-153 | A message that has lost its inline text too says which: missing, error, len, checksum or no_sha. |
| `OutputTransport.FoundUntilItsTime` | output_transport.ts:90-119 | A blob is found until the instant it was stored for, and not from then on. |
| `InboxStore.PageHasTheSizeAsked` | a2a_inbox_store.ts:73-75 | A page has fifty rows unless a limit is given, then that many from 1 to 200, and a cursor exactly when there are more. |
| `InboxStore.AckMarksHandled` | a2a_inbox_store.ts:213-221 | An acknowledged row reads handled, with the instant of its first acknowledgement, and is otherwise as it was; every other row is. |
| `InboxStore.LessIsTextBefore` | a2a_inbox_store.ts:190-196 | The order of text: the smaller character, or the end, at the first difference. |
| `JsText.TrimIsCore` | codex_routing_governor.ts:278-280 | trim() leaves the stretch that has only white space before and after it and none at its ends. |
| `Canonical.CanonicalReadsAs` | a2a-channel.ts:187-199 | Split at its unescaped bars it reads v, id, from, to, type, corr, ts, ttl_ms and body, an absent corr or ttl_ms empty. |
| `ThreadCache.OptionsMean` | codex_gateway.ts:159-163 | A positive option counts, its whole part for the entries; anything else leaves 256 entries and two hours. |
| `RateLimit.RefillIsInvisible` | a2a-channel.ts:315-319 | Refilling at one instant does not change what there is at a later one. |
| `RateLimit.TakeAfterPeek` | a2a-channel.ts:320-321 | After a peek that found a token, a later take takes exactly one. |
| `RateGrants.TokenIsBackExactly` | a2a-channel.ts:312-322 | A bucket with less than a token, left alone, holds one again exactly when what was missing has flowed in; an emptied one exactly from 60000 / perMin ms on. |
| `RateLimit.EvictForgetsTheOldest` | a2a-channel.ts:99-102 | At 4096 recipients exactly the oldest is forgotten. |
| `Governor.ReasonNamesTheRule` | codex_routing_governor.ts:107-189 | The reason is the name of the first rule that applies, alone exactly when that rule's target is the one returned, otherwise with what stood against it. |
| `Governor.StateRemembersTheLast` | codex_routing_governor.ts:107-231 | The state remembers the instant of the last event, by which an undated outcome is dated, and the target of the last decision. |
| `Governor.LatchFlipsOnTheFarSide` | codex_routing_governor.ts:260-263 | A latch falls only at or below its low bound and rises only beyond its high one. |
| `ReloadEffects.DeadLoopTakesItsOwn` | nats-channel.ts:440-449 | A loop that ends takes out its own subscription or none; every other stays. |
| `FrameDecoding.FrameDecoder.Append` | uds_frame.ts:100-109 | Appending a chunk keeps the bytes held and adds the chunk, in the old buffer or in one of max(2*capacity, needed, 64) bytes; the bytes moved are counted. |
| `FrameDecoding.FrameDecoder.Compact` | uds_frame.ts:139-142 | copyWithin on the real array leaves exactly the unread tail at the front. |
| `FrameDecoding.FrameDecoder.ReadFrames` | uds_frame.ts:111-137 | The offset loop over the array returns the frames and the unread offset that decoding the held bytes as a sequence defines, or the same error. |
| `FrameDecoding.FrameDecoder.Push` | uds_frame.ts:99-145 | One push over the mutable buffer is one step of the decoder on sequences: frames, error, bytes kept, capacity and bytes moved. |
| `FrameDecoding.FrameDecoder.Finish` | uds_frame.ts:147-150 | finish() forgets the held bytes and keeps the buffer. |
| `FrameWriting.FrameWriter.Enqueue` | uds_frame.ts:413-471 | Refuses when failed or over highWater or maxBytes, else queues the encoded frame and pumps; the new state is that of the step relation followed by the socket turns taken. |
| `FrameWriting.FrameWriter.SelectItem` | uds_frame.ts:497-517 | Continues the current frame, else takes CTRL before MCP. |
| `FrameWriting.FrameWriter.TakeBytes` | uds_frame.ts:519-543 | Books the n bytes the socket took of the unit offered: offsets, counters, completion of the frame. |
| `FrameWriting.FrameWriter.PumpLoop` | uds_frame.ts:489-551 | The loop ends, and what it does is a run of socket turns of the step relation, for every sequence of short writes and write failures. |
| `FrameWriting.FrameWriter.Resume` | uds_frame.ts:473-483 | Resuming clears the pause and pumps; nothing after a failure. |
| `FrameWriting.FrameWriter.Drain` | uds_frame.ts:421-433 | drain() settles at once when failed or idle, else waits. |
| `FrameWriting.FrameWriter.Close` | uds_frame.ts:485-487 | close() fails the writer. |
| `FrameWriting.FrameWriter.FailWith` | uds_frame.ts:553-569 | A failure empties both lanes and the counters and rejects every waiting drain(). |
| `FrameWriting.FrameWriter.ResolveIdle` | uds_frame.ts:571-581 | Waiting drains are resolved exactly when no item is pending. |
| `Pending.PendingMap.Register` | uds_frame.ts:194-214 | Throws for a bad timeout or a waiting key, else registers with a timer. |
| `Pending.PendingMap.Settle` | uds_frame.ts:216-238 | Settles, drops the entry and its timer. |
| `Pending.PendingMap.RejectAll` | uds_frame.ts:240-248 | The entries are dropped at once, and the loop over those that waited clears each timer and rejects each promise, in whatever order: all of them, no other. |
| `Pending.PendingMap.Fire` | uds_frame.ts:204-210 | The timeout of a promise rejects it and drops its entry. |
| `DeliveryChain.A2AChannel.RecordDedup` | a2a-channel.ts:1618-1622 | The set and the order list stay in step and within dedupLru. |
| `DeliveryChain.A2AChannel.AdmitInbound` | a2a-channel.ts:1495-1552 | The checks in their order up to the inject: drop, nak or attempt, and the row stored before an attempt. |
| `Acceptor.UdsConnection.Teardown` | uds_acceptor.ts:227-232 | The part before the first await: closed at once, one teardown however often it is called. |
| `Acceptor.UdsConnection.ContinueTeardown` | uds_acceptor.ts:232-266 | After the yield: the MCP buffer and the hello waiters are dropped, then the session this connection holds is removed. |
| `Acceptor.UdsConnection.RouteMcp` | uds_acceptor.ts:421-438 | Buffers before the session within the caps, feeds in session, closes on overflow. |
| `Acceptor.UdsConnection.RouteCtrl` | uds_acceptor.ts:367-419 | Routes control messages by phase: hello queue with its cap, or the live feeders. |
| `Acceptor.UdsConnection.ReceiveCtrl` | uds_acceptor.ts:443-447 | Hands out the oldest hello message waiting, else the reader waits. |
| `Acceptor.UdsConnection.FeedMcp` | uds_acceptor.ts:422-427 | A payload is fed, or the connection fails on a feed that throws. |
| `Acceptor.UdsConnection.ResumeHello` | uds_acceptor.ts:280-316 | From the hello result: close, or authenticate and start the add. |
| `Acceptor.UdsConnection.ResumeAdd` | uds_acceptor.ts:318-339 | From the add result: close, remove the session a racing teardown missed, or announce ok. |
| `Acceptor.UdsConnection.ResumeFlush` | uds_acceptor.ts:339-353 | Goes live and feeds what was buffered, in order, stopping at a close. |
| `CoreLifecycle.A2ACore.HasOwningSession` | a2a_core.ts:219-224 | The loop answers exactly whether some session of that agent is not tool-only. |
| `CoreLifecycle.A2ACore.Find` | a2a_core.ts:230-244 | By epoch the first match, else by key, else the first of the agent: the loops agree with the lookup the theorems use. |
| `CoreLifecycle.A2ACore.Start` | a2a_core.ts:276-284 | Nothing once stopping or started; concurrent calls share one start. |
| `CoreLifecycle.A2ACore.ContinueStart` | a2a_core.ts:286-329 | Each await of _doStart, its success or its failure, up to the next one. |
| `CoreLifecycle.A2ACore.ConsumeConnected` | a2a_core.ts:294-295 | The first connection becomes the consume one, and all three with natsPoolSize 1. |
| `CoreLifecycle.A2ACore.PublishConnected` | a2a_core.ts:295-296 | The second becomes the publish one, and the control one with natsPoolSize 2. |
| `CoreLifecycle.A2ACore.StageSucceeds` | a2a_core.ts:293-314 | The pool fields are assigned as each connection opens, shared according to natsPoolSize. |
| `CoreLifecycle.A2ACore.UndoNext` | a2a_core.ts:317-328 | The drain loop of a failed start over the distinct connections. |
| `CoreLifecycle.A2ACore.DistinctPool` | a2a_core.ts:325-325 | The Set of the pool fields: each connection once, however many fields share it. |
| `CoreLifecycle.A2ACore.AddSession` | a2a_core.ts:336-403 | Refused while not up or owned, else tracked as in flight before its first await. |
| `CoreLifecycle.A2ACore.ContinueAdd` | a2a_core.ts:371-459 | Each await of an add up to the next one. |
| `CoreLifecycle.A2ACore.DecideAdd` | a2a_core.ts:378-456 | The re-check after the awaits: insert under the session key, or roll back. |
| `CoreLifecycle.A2ACore.RemoveSession` | a2a_core.ts:464-476 | Finds by id and epoch, spares a session of another epoch, else takes it out of the map before the first await. |
| `CoreLifecycle.A2ACore.ContinueRemove` | a2a_core.ts:477-482 | The removed channel is stopped. |
| `CoreLifecycle.A2ACore.Stop` | a2a_core.ts:541-546 | Latches stopping at once, one stop however often it is called. |
| `CoreLifecycle.A2ACore.ContinueStop` | a2a_core.ts:548-576 | Each await of _doStop up to the next one. |
| `CoreLifecycle.A2ACore.VisitNext` | a2a_core.ts:562-567 | The live iteration over the map: the next session not yet stopped, else clear and drain. |
| `CoreLifecycle.A2ACore.DrainNext` | a2a_core.ts:570-574 | Drains the distinct connections one by one, then clears the pool. |
| `McpSession.SessionMcpServer.OnInitialized` | mcp_session.ts:78-91 | The whole buffer becomes one link of the chain. |
| `McpSession.SessionMcpServer.OnClose` | mcp_session.ts:95-99 | The loop rejects every buffered call and empties the buffer. |
| `McpSession.SessionMcpServer.Notification` | mcp_session.ts:102-122 | Chained when initialized, refused when the buffer is full, else buffered. |
| `McpSession.SessionMcpServer.AdvanceChain` | mcp_session.ts:81-110 | The head of the chain starts its next inject or ends; later links wait. |
| `McpSession.SessionMcpServer.InjectSettled` | mcp_session.ts:82-111 | Settles the caller of the inject that ended; the chain lives on. |
| `Presence.PresenceClaimer.Start` | presence.ts:98-104 | Starts once and sends the claim. |
| `Presence.PresenceClaimer.Maintain` | presence.ts:167-171 | Nothing when stopped, a heartbeat while owned, else a claim. |
| `Presence.PresenceClaimer.Stop` | presence.ts:108-113 | Gives up ownership before the release is sent. |
| `Presence.PresenceClaimer.WinClaim` | presence.ts:153-158 | A claim won after stop() releases instead of owning. |
| `Presence.PresenceClaimer.Continue` | presence.ts:133-187 | What a claim or heartbeat does with each reply. |
| `Presence.PresenceClaimer.Catch` | presence.ts:144-194 | What it does with each failure or timeout. |
| `OutputTransport.BlobStore.SetNx` | output_transport.ts:96-101 | SET NX writes exactly when it is executed and the key is free, whether or not its reply arrives. |
| `InboxStore.A2AInboxStore.Store` | a2a_inbox_store.ts:136-166 | Inserts if and only if the key is new, never overwrites, and returns the row now under the key. |
| `InboxStore.A2AInboxStore.Read` | a2a_inbox_store.ts:206-211 | The row of the key, if there is one. |
| `InboxStore.A2AInboxStore.Ack` | a2a_inbox_store.ts:213-221 | Marks the row handled, keeps the first handled_at, and returns it; no row of another key changes. |
| `InboxStore.A2AInboxStore.ListPage` | a2a_inbox_store.ts:168-204 | The clauses pushed one by one select the page the theorems are about, of at most 200 rows. |
| `ThreadCache.GatewayThreadCache.CleanUp` | codex_gateway.ts:168-178 | The two loops drop exactly the expired entries, then the oldest above the limit. |
| `ThreadCache.GatewayThreadCache.Get` | codex_gateway.ts:181-193 | Hit, miss or mismatch, with the entry moved to the end, left or deleted. |
| `ThreadCache.GatewayThreadCache.Set` | codex_gateway.ts:196-202 | The key moves to the end under the new context, between two cleanups. |
| `ThreadCache.GatewayThreadCache.Delete` | codex_gateway.ts:205-208 | Removes the key and says whether it was there. |
| `ThreadCache.GatewayThreadCache.Size` | codex_gateway.ts:211-214 | Cleans up first; the count is within the limit. |
| `RateLimit.TokenBucket.Refill` | a2a-channel.ts:315-319 | Adds the inflow since the last reading, up to the capacity. |
| `RateLimit.TokenBucket.Peek` | a2a-channel.ts:320-320 | True if and only if there is a whole token at the reading. |
| `RateLimit.TokenBucket.Take` | a2a-channel.ts:321-321 | Takes one token if there is one. |
| `RateLimit.RateLimiter.RateOk` | a2a-channel.ts:1037-1048 | Over separate bucket objects, the method makes the decision and the changes of the specification, in the order of its clock readings. |
| `RateLimit.RateLimiter.EnsurePeer` | a2a-channel.ts:1039-1044 | The recipient's bucket is found or, after an eviction, created full; the objects stay apart. |
| `Governor.GovernorState.RouteBuild` | codex_routing_governor.ts:107-189 | The decision and the state after it, latches and breakers updated before selecting. |
| `Governor.GovernorState.RecordOutcome` | codex_routing_governor.ts:197-231 | The counters and the breaker after an outcome; the other provider untouched. |
| `Governor.GovernorState.BreakerOpen` | codex_routing_governor.ts:265-270 | Open if and only if openUntil is in the future; one that has run out is reset. |
| `Reconciler.NatsChannel.ReloadNow` | nats-channel.ts:312-322 | Folds into the queued pass or queues one. |
| `Reconciler.NatsChannel.BeginPass` | nats-channel.ts:318-319 | Clears the flag as the pass starts. |
| `Reconciler.NatsChannel.EndLoad` | nats-channel.ts:283-338 | Seeds, accepts, keeps or throws, according to what Redis held and whether it was ever loaded. |
| `Reconciler.NatsChannel.RunOn` | nats-channel.ts:341-360 | The two loops of a pass up to their next await. |
| `Reconciler.NatsChannel.StopSub` | nats-channel.ts:377-386 | The subscription leaves the map; the durable goes with it only when told so. |
| `Reconciler.NatsChannel.EndSubscribe` | nats-channel.ts:362-375 | A successful subscribe registers the new object, a failed one leaves the id out. |
| `Reconciler.NatsChannel.CatchPass` | nats-channel.ts:320-320 | A pass that threw ends and clears the flag. |
| `Reconciler.NatsChannel.ReapIfStale` | nats-channel.ts:449-449 | A dead loop removes its own subscription and never one that replaced it. |

## Left out

- AttemptIsAdmissible: speaks of the ids that entered the dedup window; that they are the successful injects, and when not, is OneSourcePerIdIsEnough and RecentIsReinjectableIff.
- OneSourcePerIdIsEnough: asks for no id on two loops, because without that the property fails (RecentIdInjectedAgain).
- RecentIsReinjectableIff: lets further messages come in, also on a topic newly joined, before the one that is injected again.
- AtMostOneIsQueuedIff: is the exact condition in place of an unconditional bound, because a throw can leave two queued (AwaiterQueuesASecond).
- ReloadIsFollowedByAPass: assumes that the awaits before the queued pass settle; a subscribe that never settles holds up every later pass.
- ContinueTeardown: does not model the rejection of the pending promises or the close of the writer, which are AllRejectedKeeps and FrameWriter.Close, nor the transport's close.
- CutFitsIffEmptyFits: is the exact condition in place of an unconditional fit, because a cap below the fixed members admits no reply.
- PassEndsReconciled: takes failed subscribes and the deaths of registered loops into account; a loop that ends before its subscription is registered is not noticed by the code either, and stays registered.
- StoppedLeavesNoGhost: is stated for a claimer none of whose own requests was lost, since one given up on may still be executed after the release.
- ReplyRoundTrip: is about the object form of a body, and a reader for the text that JSON.stringify writes: no white space, no null, no negative or fractional numbers, no surrogate escapes.
- InputRoundTrip: likewise; and the members around the prompt do not include a second input or input_ref.
- LinearCost: is about error-free input; after a protocol error the decoder keeps its buffer until finish().
- RealReferenceIsNoWider: assumes a text below ten billion bytes, the width of the length sentinel.
- Protocols are step relations over values with a class for the atomic sections; timers are events that may fire at any time they are armed, and their durations are not modelled outside Presence, ThreadCache, RateLimit and Governor.
- Re-entrant calls made from inside a socket's write(), a close() during a write, and byte counts that are not integers (FrameWriter).
- A throw from sendPong that skips the rest of a chunk's frames, the idle timer, and the order of the acceptor's log lines.
- The Dispatcher of uds_frame.ts, makeUdsSign and feedCtrlSig: request and reply matching over the same Pending map, which would repeat its theorems.
- The hello handshake: a failure, or an agent id with an epoch.
- Ed25519, HMAC, SHA-256, base64 and UUIDs: digests are a function that may be assumed injective, tokens and ids are distinct names, a cursor is either an encoded key or some other text.
- NATS, JetStream, Redis, SQL and sockets: abstract stores and arbitrary replies; the SQL statements are functions on the list of rows, and text compares by code point.
- One clock for the presence store and its claimers, and clocks that do not go back.
- A presence claimer is not started again after stop(); the code allows it.
- Integers beyond the range in which JavaScript writes them in plain decimals, NaN and infinite options, floating-point rounding (arithmetic over reals), a limit that is not an integer, lone surrogates, case folding beyond ASCII.
- The plain-text reply form of the gateway, previewMarked, the lower bound of the blob TTL, fitFusionReply, delBlob.
- withDefaults over explicitly undefined members (Governor takes the resolved configuration), the decision log record and the advisory backoff.
- A reload() from a promise reaction counts as that of code that awaited a pass, whichever promise it reacted to (Reconciler).
- stop() of NatsChannel, its control and status loops, message delivery through makeGate, and the consumer settings of a JetStream subscription.
- Tool lists, tool calls, instructions, status beats, counters and logging; sanitizeBody; validation of outgoing envelopes; the choice of topics to subscribe; key lookup and rotation.
- Portal, HTTP servers, launchers, brain, kai and vault fronts, and the LangChain agent.
