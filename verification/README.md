# wotex native protocol machines, verified

Two native helpers of the wotex project are modelled here as protocol machines, and what they promise over
whole runs is proved.

**The CoAP OSCORE helper.** A durable store admits each security context once and extends its sequence
boundary before numbers are used. A worker answers commands, relays exchanges and observations of a CoAP
server, and writes its frames to an owner that opens a window of eight reports. A supervisor relays bytes
between owner and worker and tears the worker down on a fixed schedule. Beside them stand the codecs: the
registry file, identity encodings, base64, body uploads, line framing and the path validator.

**The Matter bridge.** Request tickets pass through bounded custody with deadlines. A slotted output queue
serves requests, controls and observation receipts to one writer. An observation owner spends output
reservations through two rings. An input machine turns bytes into checked frames, and a store issues endpoint
numbers.

## How it is built

Each component has a machine on values: a state, a function per operation, a function over whole histories of
events, an invariant that every operation keeps, and theorems that follow for every run. Where the source
changes arrays and fields in place there is a class beside the machine whose methods carry the source's loops
and buffers; each method's contract ties the new state to the machine's function of the old one. History
fields (frames ever appended, contexts ever admitted, bytes ever delivered) exist only so that whole-run
properties can be stated.

| files | component |
|---|---|
| `Bytes`, `Identity`, `Registry`, `Disk`, `StoreMachine`, `StoreSafety`, `ContextStore` | durable context store |
| `Base64`, `Body`, `BodyBuffer`, `Framing`, `FrameBuffer`, `PathSyntax` | codecs |
| `OutputQueue`, `OutputBuffer`, `Credit`, `Freshness`, `Exchange`, `Reports`, `Worker`, `WorkerSafety`, `WorkerRuns`, `WorkerFreshness`, `WorkerWire`, `WorkerBodies`, `WorkerLoop` | worker |
| `Custody`, `CustodyRuns`, `CustodyLoop` | supervisor |
| `BridgeOutput`, `BridgeOutputRuns`, `BridgeReceipts`, `BridgeSlots`, `Observations`, `ObservationRings` | bridge output and observations |
| `Handoff`, `HandoffOwner`, `Requests`, `RequestTable`, `BridgeInput`, `InputBuffer`, `EndpointStore` | bridge custody, requests, input and storage |

## What the environment is

- SHA-256 and key derivation are arbitrary functions; only `Identity.OverlapIsExact` assumes, in one of its two
  directions, that digests do not collide.
- The disk keeps a durable version and every version an unsynced rename or creation could leave; a crash may
  follow any step and expose any of them.
- libcoap is the environment of the worker. Its callbacks come only while the worker is in its io or wait step,
  which it enters only while open, not closing and with a working exchange. Commands, clocks, write lengths,
  frame texts, memory and send failures are arbitrary.
- On the bridge each section under a mutex is one step and steps of all threads interleave freely. Clocks,
  decoders, sinks, commits and what other owners of the shared custody do are arbitrary, except that an owner
  takes only tickets it reserved (`bridge_requests.cpp:226-229` rules the contrary out by exiting).

## Where code and promise differ

The class comment at `packages/wotex-matter/native/include/wotex_matter/bridge_output.hpp:29-30` says that each
class of frames preserves first-in-first-out order. The code does so for requests and controls. Observation
receipts are ordered by reservation but queued by commit, so they can cross; `BridgeReceipts` gives a run and
the exact condition, and that committing in the order of reservations is enough. `Observations` shows that the
one user of reservations does so.

No comment says when `Finish` (`bridge_requests.cpp:341-358`) releases the handlers it retains. At a clock reading
that custody rejects it releases none and returns the error, and destruction at `bridge_requests.cpp:157` exits the
process while one is left; `Requests.FinishReleasesEverything` gives the exact condition.

## Model

| member | source | states |
|---|---|---|
| `Bytes.Integer` | packages/wotex-coap/native/oscore/store.c:77-81 | reads big-endian bytes as the number they encode |
| `Bytes.Encode` | packages/wotex-coap/native/oscore/store.c:83-88 | writes exactly the big-endian bytes of the number in place and touches nothing else |
| `Bytes.EncodedIntegerReadsBack` | packages/wotex-coap/native/oscore/store.c:77-88 | reading what was encoded gives the number back |
| `Bytes.ReadIntegerEncodesBack` | packages/wotex-coap/native/oscore/store.c:77-88 | encoding what was read gives the bytes back |
| `Registry.ReaderAcceptsExactlyWhatIsWritten` | packages/wotex-coap/native/oscore/store.c:173-214 | the registry reader accepts a file if and only if it is one the writer produces, and recovers exactly the records written |
| `Registry.ScreenIsExact` | packages/wotex-coap/native/oscore/store.c:273-290 | screening passes exactly when every record has a boundary in 1..2^40 and none overlaps the identity asked for |
| `StoreMachine.ApplyKeepsInv` | packages/wotex-coap/native/oscore/store.c:233-347 | every step of opening, persisting, reserving, exiting, and every crash with any surviving version of unsynced files, keeps the store invariant |
| `StoreSafety.EveryHistoryIsSafe` | packages/wotex-coap/native/oscore/store.c:173-363 | the store invariant holds after every history of opens, reserves, exits and power losses |
| `StoreSafety.NoContextIsAdmittedTwice` | packages/wotex-coap/native/oscore/store.c:273-347 | over all processes and crashes, two opens that returned OK never had overlapping identities |
| `StoreSafety.ConfirmedBoundariesSurvive` | packages/wotex-coap/native/oscore/store.c:233-271 | whatever happens after a boundary was confirmed, every registry a crash can leave is readable, records at least that boundary for the identity, and holds only boundaries in 1..2^40 |
| `StoreSafety.RegistriesOnlyGrow` | packages/wotex-coap/native/oscore/store.c:173-290 | once the registry has only one version a crash can leave, every version that can be left later extends its records: same identities in the same places, boundaries not lower |
| `StoreSafety.NoFreshStartAfterAdmission` | packages/wotex-coap/native/oscore/store.c:292-347 | after any admission no process can start from an absent registry: the lock and the registry survive every crash |
| `StoreSafety.FailurePoisonsTheOwner` | packages/wotex-coap/native/oscore/store.c:349-363 | once reserve has failed, until that owner exits or power is lost, it confirms nothing, admits nothing, keeps its status and boundary and leaves the disk alone |
| `StoreSafety.NoNonceIsSentTwice` | packages/wotex-coap/native/oscore/store.c:273-363 | when datagrams are numbered upwards below the boundary in hand, no key and nonce pair goes on the wire twice across all owner lifetimes and crashes, for any hash and key derivation |
| `ContextStore.Store.ReadRegistry` | packages/wotex-coap/native/oscore/store.c:173-214 | the in-place read is a run of the machine; OK means the buffer holds the file's records, and an absent registry is accepted only with a new lock |
| `ContextStore.Store.Persist` | packages/wotex-coap/native/oscore/store.c:233-271 | temp write, sync, rename, directory sync as machine steps; OK means the new records are on disk and are the only version a crash can leave |
| `ContextStore.Store.Screened` | packages/wotex-coap/native/oscore/store.c:273-290 | the scan over the record buffer computes the screening verdict of the records it holds |
| `ContextStore.Store.Admit` | packages/wotex-coap/native/oscore/store.c:273-290 | OK appends exactly this context to the admitted ones and its record to the buffer; a screening verdict is passed on; any failure admits nothing and gives the lease back |
| `ContextStore.Store.Open` | packages/wotex-coap/native/oscore/store.c:292-347 | open is a run of the machine; OK admits exactly this context with its initial boundary, failure admits nothing and leaves the lease as it was |
| `ContextStore.Store.Reserve` | packages/wotex-coap/native/oscore/store.c:349-363 | a run of the machine that confirms the boundary asked for or fails for good; zero and beyond 2^40 are Exhausted; a failed owner repeats its status without effect |
| `ContextStore.Store.WriteAll` | packages/wotex-coap/native/oscore/store.c:246-251 | partial writes of any size either add up to the whole file or leave the write unfinished |
| `ContextStore.Store.LoadFile` | packages/wotex-coap/native/oscore/store.c:173-214 | OK exactly when the whole file was read and it parses, with its records left in the buffer |
| `ContextStore.Store.Fill` | packages/wotex-coap/native/oscore/store.c:194-199 | reads of any size add up to the whole file in the buffer, or one fails |
| `ContextStore.Store.SyncRenamed` | packages/wotex-coap/native/oscore/store.c:264-270 | once the directory is synced the renamed file is the only version a crash can leave, and the context counts as admitted or its boundary as confirmed |
| `Identity.WriteBytes` | packages/wotex-coap/native/oscore/identity.c:27-36 | appends the length-prefixed form in place and touches nothing before or behind it |
| `Identity.PutBytesIsPrefixFree` | packages/wotex-coap/native/oscore/identity.c:27-36 | length-prefixed forms followed by anything determine the bytes they hold and what follows |
| `Identity.ContextInputIsInjective` | packages/wotex-coap/native/oscore/identity.c:109-136 | the hashed context input determines the material and fits its 512-byte buffer |
| `Identity.MaskPrefix` | packages/wotex-coap/native/oscore/identity.c:90-107 | computes the first eight nonce bytes in place for any ID of up to seven bytes |
| `Identity.NoncePrefixSeparatesIds` | packages/wotex-coap/native/oscore/identity.c:90-107 | under one Common IV the first eight nonce bytes separate IDs of up to seven bytes (section 5.2 of RFC 8613) |
| `Identity.NonceSeparatesPartialIvs` | packages/wotex-coap/native/oscore/identity.c:90-107 | one ID never yields one nonce for two Partial IVs below 2^40 |
| `Identity.SharedNonceMeansOverlap` | packages/wotex-coap/native/oscore/identity.c:90-146 | contexts that could ever use the same key and nonce, in either direction, have overlapping identities |
| `Identity.OverlapIsExact` | packages/wotex-coap/native/oscore/identity.c:138-146 | identities overlap when the materials are equal or share a key and nonce space, and absent a digest collision only then |
| `Base64.DecodesExactlyTheCanonical` | packages/wotex-coap/native/oscore/body.c:15-57 | the decoder accepts a text if and only if it is the canonical padded encoding of some bytes (sections 3.5 and 4 of RFC 4648), and yields those bytes |
| `Base64.EncodedDecodes` | packages/wotex-coap/native/oscore/body.c:15-57 | decoding an encoding gives the bytes back |
| `Base64.DecodedEncodes` | packages/wotex-coap/native/oscore/body.c:15-57 | encoding what was decoded gives the text back |
| `Base64.Validate` | packages/wotex-coap/native/oscore/body.c:15-40 | the first loop accepts exactly the decodable texts, before anything is written |
| `Base64.DecodeInto` | packages/wotex-coap/native/oscore/body.c:15-57 | accepts exactly decodable text within capacity and 32768 bytes; accepted text leaves its bytes in place and nothing else changed, rejected text leaves the buffer as it was |
| `Body.OnlyVerifiedBodiesAreExposed` | packages/wotex-coap/native/oscore/body.c:99-154 | whatever events arrive, data is exposed only at full announced length and under its announced digest |
| `Body.PoisonIsPermanent` | packages/wotex-coap/native/oscore/body.c:82-91 | a failed upload stays failed and empty whatever follows |
| `Body.TransferIsAccepted` | packages/wotex-coap/native/oscore/body.c:99-154 | the begin, ceil(n/32768) contiguous chunks and end of any body up to 1 MiB are accepted and yield the original bytes |
| `BodyBuffer.Buffer.Begin` | packages/wotex-coap/native/oscore/body.c:99-115 | over the allocated buffer: announces length and digest, or poisons the upload; the new state is that of the acceptor the theorems are about |
| `BodyBuffer.Buffer.Chunk` | packages/wotex-coap/native/oscore/body.c:122-132 | over the allocated buffer: a contiguous, decodable chunk of this upload is appended in place, anything else poisons it |
| `BodyBuffer.Buffer.End` | packages/wotex-coap/native/oscore/body.c:134-146 | over the allocated buffer: ready exactly at full length and under the announced digest, else poisoned |
| `Framing.FeedIsByteByByte` | packages/wotex-coap/native/oscore/frame.c:17-45 | copying whole stretches up to a newline gives the same lines, consumer state, partial line, peak and failure as one byte at a time |
| `Framing.SplitsDoNotMatter` | packages/wotex-coap/native/oscore/frame.c:17-45 | however the input is split into blocks, the outcome is that of feeding it at once, for any consumer |
| `Framing.NothingIsLost` | packages/wotex-coap/native/oscore/frame.c:17-45 | until input closes, the delivered lines and the partial line are all the bytes fed |
| `FrameBuffer.Buffer.Feed` | packages/wotex-coap/native/oscore/frame.c:17-45 | the loop over the fixed buffer is the block feed, and its result is whether input is still open |
| `FrameBuffer.Buffer.End` | packages/wotex-coap/native/oscore/frame.c:47-53 | closes input for good; clean only if input was open and no line was left partial |
| `PathSyntax.OnePassDecidesTheDefinition` | packages/wotex-coap/native/oscore/command.c:50-74 | the single pass accepts exactly the paths whose segments decode, hold no dot segment (plain or escaped) and no leading colon, and whose query decodes |
| `PathSyntax.Path` | packages/wotex-coap/native/oscore/command.c:50-74 | the loop with its lookahead and counters decides that definition |
| `Credit.WindowNeverUnderflows` | packages/wotex-coap/native/oscore/credit.c:17-20 | on a started account that has not failed, the window is eight less what is issued and not acknowledged, never wrapping |
| `Credit.WriteIsExact` | packages/wotex-coap/native/oscore/credit.c:45-51 | a written number is accepted exactly if it is the next one and was issued |
| `Credit.AssignKeepsOrder` | packages/wotex-coap/native/oscore/credit.c:36-43 | a number is granted only inside the window, and waiting means exactly a shut or unopened window |
| `Credit.AcknowledgeKeepsOrder` | packages/wotex-coap/native/oscore/credit.c:22-34 | acknowledgements stay at or below what was written, and a rejected one fails the account |
| `Credit.Account.Ack` | packages/wotex-coap/native/oscore/credit.c:22-34 | updating the fields in place is the acknowledgement AcknowledgeKeepsOrder is about |
| `Credit.Account.Next` | packages/wotex-coap/native/oscore/credit.c:36-43 | updating the fields in place is the assignment AssignKeepsOrder is about |
| `Credit.Account.Wrote` | packages/wotex-coap/native/oscore/credit.c:45-51 | updating the fields in place is the write WriteIsExact is about |
| `Freshness.FreshnessMatchesTheStandard` | packages/wotex-coap/native/oscore/observation.c:23-31 | the masked difference test is the two-case comparison of section 3.4 of RFC 7641, for all 24-bit numbers and all times |
| `Freshness.EarlierNumberPassesExactlyPastHalf` | packages/wotex-coap/native/oscore/observation.c:4-37 | when each notification after the first admission comes within 128 s of the last one admitted, an earlier admitted number passes again within 128 s of the last exactly when the advance since it, modulo 2^24, is past 2^23 |
| `Freshness.NoNumberIsAdmittedTwiceWithinARound` | packages/wotex-coap/native/oscore/observation.c:4-37 | in such a run, whenever it starts, no number is admitted twice before the numbers went all the way round |
| `Freshness.FirstNoticeIsPrompt` | packages/wotex-coap/native/oscore/observation.c:4-37 | such a run may begin at any clock reading: nothing is asked before the first admission |
| `Freshness.Record.Admit` | packages/wotex-coap/native/oscore/observation.c:4-37 | the fields after admission, and whether it is newer, stale, of another format or unusable, are those the theorems are about |
| `Exchange.ActiveExactlyWhilePending` | packages/wotex-coap/native/oscore/exchange.c:61-311 | in every run of sends, responses, failures, cancellations and abandonments the exchange is active exactly while an operation is pending; requests and first registrations do not observe, renewals and cancellations do |
| `Exchange.FailedExchangeStartsNothing` | packages/wotex-coap/native/oscore/exchange.c:425-619 | once failed it stays failed, and what is active later was already active then |
| `Exchange.Session.Classify` | packages/wotex-coap/native/oscore/exchange.c:195-260 | each response ends the pending operation and is handed on by its kind, except that a notification leaves a cancellation pending; a registration observes after exactly a 2.xx code with an Observe option |
| `Exchange.Session.SendObserve` | packages/wotex-coap/native/oscore/exchange.c:482-531 | registering and renewing are pending only if sent, with the source's order of refusals |
| `Exchange.Session.SendRequest` | packages/wotex-coap/native/oscore/exchange.c:425-480 | a request is pending only if sent, with the source's order of refusals |
| `Exchange.Session.Abort` | packages/wotex-coap/native/oscore/exchange.c:61-68 | a failure ends whatever is pending and observed, once and for all |
| `Exchange.Session.Withdraw` | packages/wotex-coap/native/oscore/exchange.c:545-605 | cancelling, local or explicit, in each case of store and send failure |
| `Exchange.Session.Leave` | packages/wotex-coap/native/oscore/exchange.c:607-619 | on the way out a registration still pending is cancelled like one established, and a cancellation under way is left alone |
| `OutputQueue.WireThenBufferIsEverythingAppended` | packages/wotex-coap/native/oscore/worker.c:159-167 | for any interleaving of appends and partial writes of the queue, bytes written followed by bytes buffered are the appended frames in order, and a frame counts as sent exactly when its last byte has left |
| `OutputQueue.FlushMovesBytes` | packages/wotex-coap/native/oscore/worker.c:1243-1268 | a write moves exactly the bytes it wrote from the buffer |
| `OutputBuffer.EndsIncrease` | packages/wotex-coap/native/oscore/worker.c:159-167 | frame ends are positive, strictly increasing and end at the bytes in use |
| `OutputBuffer.Output.Append` | packages/wotex-coap/native/oscore/worker.c:159-167 | a frame goes into the arrays whole, or not at all exactly when bytes or frames would not fit |
| `OutputBuffer.Output.CountCompleted` | packages/wotex-coap/native/oscore/worker.c:1248-1250 | counts the frames whose last byte is within the write |
| `OutputBuffer.Output.Drop` | packages/wotex-coap/native/oscore/worker.c:1258-1264 | shifting frames and bytes in place is the queue's flush |
| `Reports.PieceByPiece` | packages/wotex-coap/native/oscore/worker.c:534-589 | each phase sends the next outstanding piece of the body and leaves the rest |
| `Reports.PumpEmitsInOrder` | packages/wotex-coap/native/oscore/worker.c:591-635 | each pump emits the next frame owed, so frames of delivered reports followed by those under way grow by it |
| `Reports.StoreKeepsInv` | packages/wotex-coap/native/oscore/worker.c:785-796 | a new report replaces one not begun or waits behind one begun, keeping both apart, frames whole, delivery in order and the newest kept |
| `Reports.LargeReportsAreAcceptedUploads` | packages/wotex-coap/native/oscore/worker.c:383-446 | a report body of more than 32768 bytes and at most 1 MiB is framed as a begin, ceil(n/32768) chunks and an end that the upload acceptor takes and yields back |
| `WorkerSafety.WriteIsNeverRefused` | packages/wotex-coap/native/oscore/worker.c:1243-1268 | the credit accepts every report number a write completes, so a flush moves only written numbers and fails nothing |
| `WorkerSafety.StreamIsTold` | packages/wotex-coap/native/oscore/worker.c:919-952 | each turn of the stream pump says the next piece owed, and the last makes the answer whole |
| `WorkerRuns.CommandKeepsInv` | packages/wotex-coap/native/oscore/worker.c:1042-1230 | every command, in every state, keeps the worker invariant |
| `WorkerRuns.ResponseKeepsInv` | packages/wotex-coap/native/oscore/worker.c:714-849 | every response callback keeps the worker invariant |
| `WorkerRuns.FailureKeepsInv` | packages/wotex-coap/native/oscore/worker.c:851-872 | every exchange failure keeps the worker invariant |
| `WorkerRuns.ClockKeepsInv` | packages/wotex-coap/native/oscore/worker.c:1270-1316 | request deadlines and observation upkeep keep the worker invariant |
| `WorkerRuns.QueuedReportsFollowTheCredit` | packages/wotex-coap/native/oscore/worker.c:591-635 | in every reachable state the queued report numbers are exactly written+1 to issued in order, acknowledged <= written <= issued <= acknowledged+8, and no flush is refused |
| `WorkerRuns.ReportsLeaveWholeAndInOrder` | packages/wotex-coap/native/oscore/worker.c:383-635 | in every run the report frames, numbered 1, 2, ... without a gap, are all frames of each delivered report and then a proper prefix of one more; delivered reports are admitted ones in order, each at most once |
| `WorkerRuns.NewestIsDeliveredAndEventsHaveNoGaps` | packages/wotex-coap/native/oscore/worker.c:749-797 | with nothing pending the newest admitted report has been delivered; event observations deliver a gap-free prefix |
| `WorkerRuns.NothingIsReportedAfterTheEnd` | packages/wotex-coap/native/oscore/worker.c:674-712 | once the observation is closed nothing is admitted, begun or delivered any more, whatever follows |
| `WorkerRuns.StreamsOnlyOnAnIdleExchange` | packages/wotex-coap/native/oscore/worker.c:828-849 | in every run the exchange is active exactly while an operation is pending, and a response stream exists only while its request is active and the exchange idle |
| `WorkerRuns.OneFinalReply` | packages/wotex-coap/native/oscore/worker.c:1203-1230 | every command gets at most one final reply over the response, failure, deadline and local-error paths, and exactly one unless it is the request under way or the run failed; a streamed answer is whole |
| `WorkerFreshness.AdmittedNotificationsAreNewer` | packages/wotex-coap/native/oscore/worker.c:749-797 | in every run each admitted notification that is no renewal's answer is newer than the one before by section 3.4 of RFC 7641, and all share one content format |
| `WorkerWire.DescriptorCarriesEveryFrame` | packages/wotex-coap/native/oscore/worker.c:1243-1353 | in every run of the worker the bytes that have left followed by those buffered are the frames its handlers and pumps appended, whole and in order, their tags are the log the other theorems speak of, and a frame is off the queue exactly when its last byte has left |
| `WorkerWire.ApplyGrows` | packages/wotex-coap/native/oscore/worker.c:1042-1353 | every event other than a write leaves output alone or appends exactly one frame, whole, with the text that event brought |
| `WorkerBodies.DeliveredReportsAreAcceptedUploads` | packages/wotex-coap/native/oscore/worker.c:383-635 | in every run the frames of each delivered report over 32768 bytes stand together on the log: pieces that an upload acceptor takes, whatever the body is called, and that leave it with the admitted payload, then the report |
| `WorkerBodies.StreamedAnswersAreAcceptedUploads` | packages/wotex-coap/native/oscore/worker.c:828-952 | in every run all that was said about a command answered by a streamed body is pieces that an upload acceptor takes and that leave it with that body, then the result |
| `WorkerBodies.ReachedIsSmall` | packages/wotex-coap/native/oscore/worker.c:383-446 | in every run each admitted payload is at most 1 MiB, and each body streamed or being streamed is more than 32768 bytes and at most 1 MiB |
| `WorkerLoop.Loop.DrainStream` | packages/wotex-coap/native/oscore/worker.c:919-952 | the loop is a run of stream pumps and leaves a stream unfinished only when its next frame has no room |
| `WorkerLoop.Loop.SendReport` | packages/wotex-coap/native/oscore/worker.c:591-635 | one pump over the arrays: number from the credit, frame appended, slot advanced, exactly as the machine does |
| `WorkerLoop.Loop.SettleWritten` | packages/wotex-coap/native/oscore/worker.c:1251-1257 | the credit is told of the completed report frames in order and of nothing else, and whether a report was completed |
| `WorkerLoop.Loop.FlushOutput` | packages/wotex-coap/native/oscore/worker.c:1243-1268 | whatever the write returns: moved bytes settle the credit and shift the arrays, an empty buffer or an interruption changes nothing, a zero or failed write ends the run, each exactly as the machine does |
| `WorkerLoop.Loop.AfterWrite` | packages/wotex-coap/native/oscore/worker.c:1247-1266 | after a write that moved bytes, credit, arrays and the initial-report flag are those of the machine |
| `CustodyRuns.RelayDeliversAPrefix` | packages/wotex-coap/native/oscore/custody.c:202-267 | the owner always has a prefix of the worker's bytes and the worker a prefix of the owner's; without a failure, delivered and queued output are all that was read of the worker |
| `CustodyRuns.ChildStatusMeansEverythingDelivered` | packages/wotex-coap/native/oscore/custody.c:295-338 | a status other than 129 (unverified) without a failure is the exited child's own, and then every byte the worker wrote was delivered |
| `CustodyRuns.FirstFailureAndScheduleStay` | packages/wotex-coap/native/oscore/custody.c:152-166 | the first failure reason wins and the teardown deadlines, once set, never move and stay in order |
| `CustodyRuns.NoSignalAfterReap` | packages/wotex-coap/native/oscore/custody.c:146-200 | no group signal follows a reap, not even the parting one of main, and there is at most one reap |
| `CustodyRuns.TeardownEndsOnTime` | packages/wotex-coap/native/oscore/custody.c:295-316 | the first turn whose clock has reached the end of the schedule, or fails, returns |
| `CustodyRuns.PollStopsAtTheNextDeadline` | packages/wotex-coap/native/oscore/custody.c:269-276 | the poll never sleeps past the next deadline still to be acted on, and during teardown waits zero only when one is due |
| `CustodyLoop.RelayQueue.Drain` | packages/wotex-coap/native/oscore/custody.c:249-267 | after a write of n bytes the rest of the queue has moved to the front |
| `CustodyLoop.Supervisor.Stop` | packages/wotex-coap/native/oscore/custody.c:152-166 | keeps the first reason, drops output on failure, and sets the schedule once |
| `CustodyLoop.Supervisor.ReadOwner` | packages/wotex-coap/native/oscore/custody.c:202-221 | takes in at most what fits, in order; a lost owner stops with 127 |
| `CustodyLoop.Supervisor.ReadSdk` | packages/wotex-coap/native/oscore/custody.c:223-236 | appends worker bytes behind those queued; an end of output is seen only behind the last byte |
| `CustodyLoop.Supervisor.ReadDiagnostic` | packages/wotex-coap/native/oscore/custody.c:238-247 | any diagnostic byte stops with 131, an end closes it |
| `CustodyLoop.Supervisor.WriteOwner` | packages/wotex-coap/native/oscore/custody.c:249-267 | what was written leaves the front of the queue; a lost reader stops with 127 |
| `CustodyLoop.Supervisor.Turn` | packages/wotex-coap/native/oscore/custody.c:295-338 | one turn of the loop, with all its exits, is one turn of the machine |
| `BridgeOutputRuns.NoRunExits` | packages/wotex-matter/native/src/bridge_output.cpp:98-166 | no interleaving of producers and the writer reaches the exit in Finish or in Release |
| `BridgeOutputRuns.FinishFindsASlot` | packages/wotex-matter/native/src/bridge_output.cpp:113-127 | in every invariant state a control slot is free once all but the frame in progress are swept |
| `BridgeOutputRuns.ReleaseIsAlwaysOurs` | packages/wotex-matter/native/src/bridge_output.cpp:157-166 | in every invariant state the slot in the writer's hand is its own, and release reports exactly the terminal frame |
| `BridgeOutputRuns.FramesLeaveInOrderAndWhole` | packages/wotex-matter/native/src/bridge_output.cpp:24-166 | requests and controls leave in admission order, and the descriptor carries whole well-formed lines, the last possibly cut by the end |
| `BridgeOutputRuns.ControlsGoFirst` | packages/wotex-matter/native/src/bridge_output.cpp:129-155 | in every reachable state a queued control is taken before anything else, and of requests, controls or receipts the oldest queued one |
| `BridgeOutputRuns.OnlyTheTerminalFrameFollows` | packages/wotex-matter/native/src/bridge_output.cpp:98-166 | after an accepted Finish only the rest of the frame in progress and then the terminal frame are written |
| `BridgeOutputRuns.EverythingIsFreeAfterTheEnd` | packages/wotex-matter/native/src/bridge_output.cpp:17-22 | after the end, once the writer has let go, every slot is free, so destruction does not exit |
| `BridgeReceipts.ReceiptsInOrderExactlyWithoutLateCommits` | packages/wotex-matter/native/src/bridge_output.cpp:57-155 | observation receipts leave in reservation order if and only if none handed over was committed after a later reservation had been handed over |
| `BridgeReceipts.RisingCommitsLeaveInOrder` | packages/wotex-matter/native/src/bridge_output.cpp:57-155 | what producers alone can keep: if they commit in the order of their reservations, receipts leave in that order whatever the writer and others do, and what leaves under a reservation is what was committed under it |
| `BridgeReceipts.ReceiptsCanCross` | packages/wotex-matter/native/src/bridge_output.cpp:57-155 | without that condition they cross: for any two receipts, a run that takes the later reservation first |
| `BridgeSlots.OutputOwner.Oldest` | packages/wotex-matter/native/src/bridge_output.cpp:129-136 | the search loop is the selection of the least identity queued in a class, none exactly if none is queued |
| `BridgeSlots.OutputOwner.Push` | packages/wotex-matter/native/src/bridge_output.cpp:24-55 | over the slot array: a well-formed line takes a free slot of its class with the next identity; each refusal, in the source's order, changes nothing |
| `BridgeSlots.OutputOwner.ReserveObservation` | packages/wotex-matter/native/src/bridge_output.cpp:57-70 | over the slot array: reserves a free observation slot under the next identity, or changes nothing |
| `BridgeSlots.OutputOwner.CommitObservation` | packages/wotex-matter/native/src/bridge_output.cpp:72-96 | over the slot array: queues the receipt in exactly the slot its ticket reserved, or changes nothing |
| `BridgeSlots.OutputOwner.Finish` | packages/wotex-matter/native/src/bridge_output.cpp:98-127 | over the slot array: sweeps everything but the frame in progress and queues the terminal frame, or changes nothing |
| `BridgeSlots.OutputOwner.Take` | packages/wotex-matter/native/src/bridge_output.cpp:138-155 | over the slot array: hands the writer the oldest control, else the older of request and receipt |
| `BridgeSlots.OutputOwner.Release` | packages/wotex-matter/native/src/bridge_output.cpp:157-166 | over the slot array: frees the writer's slot and says whether it held the terminal frame |
| `BridgeSlots.OutputOwner.End` | packages/wotex-matter/native/src/bridge_output.cpp:168-189 | over the slot array: the first end state stays and only the frame in progress keeps its slot |
| `Observations.NoRunOverflows` | packages/wotex-matter/native/src/bridge_sdk_observations.cpp:84-119 | queued, in work, published and being committed never exceed the 64 observation slots, so the overflow exit is unreachable |
| `Observations.ReceiptsFollowSubmissions` | packages/wotex-matter/native/src/bridge_sdk_observations.cpp:44-182 | submissions are accepted and committed in rising identity, each committed once and only if accepted; the writer is handed their receipts in that order, and each is the encoding of the generation and id of the submission that made its reservation and of what became of its value |
| `ObservationRings.Ring.Put` | packages/wotex-matter/native/src/bridge_sdk_observations.cpp:44-62 | the ring gains the item behind its last one |
| `ObservationRings.Ring.Get` | packages/wotex-matter/native/src/bridge_sdk_observations.cpp:84-93 | the oldest item leaves the ring |
| `ObservationRings.Delivery.Submit` | packages/wotex-matter/native/src/bridge_sdk_observations.cpp:44-62 | a submission enters the queue ring with its generation, id and reservation exactly if its id is set, the owner runs, there is room and output reserved a slot |
| `ObservationRings.Delivery.Begin` | packages/wotex-matter/native/src/bridge_sdk_observations.cpp:84-93 | the oldest submission, if any, leaves the queue ring unless stopping |
| `ObservationRings.Delivery.Complete` | packages/wotex-matter/native/src/bridge_sdk_observations.cpp:103-119 | for each answer of custody: a sampled submission goes behind the published ones with its outcome unless stopping, and always finds room; a closed or rejected one leaves the rings alone, and only a rejected one fails |
| `ObservationRings.Delivery.TakePublication` | packages/wotex-matter/native/src/bridge_sdk_observations.cpp:133-149 | the worker gets the oldest publication unless stopping |
| `ObservationRings.Delivery.Clear` | packages/wotex-matter/native/src/bridge_sdk_observations.cpp:64-78 | after stopping both rings are empty |
| `Handoff.PendingCountsEntries` | packages/wotex-matter/native/src/bridge_handoff.cpp:9-105 | in every history the pending count is the number of occupied entries and live ids are distinct |
| `Handoff.TicketsAreTakenOnceAndInTime` | packages/wotex-matter/native/src/bridge_handoff.cpp:48-80 | each ticket is taken at most once; a decided outcome only if stored, strictly before its deadline and before closing; taken at or past the deadline it timed out; taken after closing it is closed |
| `Handoff.ReservedIdsAreNew` | packages/wotex-matter/native/src/bridge_handoff.cpp:9-28 | a reservation gets an id above every one issued before and the deadline asked for |
| `Handoff.DeadlineStays` | packages/wotex-matter/native/src/bridge_handoff.cpp:63-66 | whatever else happens, an issued id keeps its deadline or is gone |
| `HandoffOwner.CustodyTable.Reserve` | packages/wotex-matter/native/src/bridge_handoff.cpp:9-28 | over the entry array: a new id with its deadline in a free entry, or a refusal in the source's order |
| `HandoffOwner.CustodyTable.Resolve` | packages/wotex-matter/native/src/bridge_handoff.cpp:30-46 | over the entry array: a first result before the deadline is stored, a late one times the ticket out |
| `HandoffOwner.CustodyTable.Take` | packages/wotex-matter/native/src/bridge_handoff.cpp:48-61 | over the entry array: pending stays, anything decided, timed out or closed frees the entry |
| `HandoffOwner.CustodyTable.Close` | packages/wotex-matter/native/src/bridge_handoff.cpp:75-80 | the loop over the entries closes exactly the occupied ones |
| `HandoffOwner.Waiter.Wait` | packages/wotex-matter/native/src/bridge_handoff_owner.cpp:36-67 | for any wakes: custody goes through this waiter's takes and what others do, in their order, up to the take that answers; the result and outcome are that take's and never pending, a completed wait just took this ticket, an unknown ticket changes nothing, each sleep is positive and ends by the ticket's deadline |
| `Requests.HandlersMirrorLiveTickets` | packages/wotex-matter/native/src/bridge_requests.cpp:177-266 | in every history the retained handlers are exactly the live tickets other owners did not reserve, so no exit in Respond or Finish is reached |
| `Requests.FinishReleasesEverything` | packages/wotex-matter/native/src/bridge_requests.cpp:341-358 | finishing always closes custody and never exits; at a time custody accepts it releases every handler, at a rejected time none, so it leaves none behind exactly at an accepted time or with none retained |
| `Requests.ClosedAnswers` | packages/wotex-matter/native/src/bridge_requests.cpp:218-266 | once custody is closed an answered request is always Closed, never Completed |
| `RequestTable.Contexts.Start` | packages/wotex-matter/native/src/bridge_requests.cpp:177-216 | over the handler table: a reserved ticket is retained in the first free slot, a refused one nowhere |
| `RequestTable.Contexts.Respond` | packages/wotex-matter/native/src/bridge_requests.cpp:218-231 | over the handler table: a taken ticket frees its slot, a pending one keeps it |
| `RequestTable.Contexts.Finish` | packages/wotex-matter/native/src/bridge_requests.cpp:341-358 | closes custody, then the loop answers every retained ticket |
| `BridgeInput.SplitsDoNotMatter` | packages/wotex-matter/native/src/bridge_input.cpp:269-349 | the specification reads byte by byte, so a split changes no call, id or state; that the buffered loop does so too is the claim of InputBuffer.ResultInput.Feed |
| `BridgeInput.IdsRiseAndClosingComesFirst` | packages/wotex-matter/native/src/bridge_input.cpp:269-365 | whatever arrives and whatever custody, clock and sink answer, probe and observation ids are handed on strictly increasing, closing is announced at most once and before custody closes, and nothing is called after the sink was told it closed; a run ended by the end of input has closed in just that way |
| `BridgeInput.ClosedStaysClosed` | packages/wotex-matter/native/src/bridge_input.cpp:355-365 | after closing nothing is read and nobody is called |
| `InputBuffer.ResultInput.Feed` | packages/wotex-matter/native/src/bridge_input.cpp:269-349 | the loop over the fixed 1024-byte buffer, with its early returns, makes the calls and reaches the state of reading byte by byte, so neither splits nor buffer reuse matter |
| `InputBuffer.ResultInput.End` | packages/wotex-matter/native/src/bridge_input.cpp:363-365 | the end of input closes what is open, as partial exactly if bytes are left in the buffer |
| `EndpointStore.NumbersAreGrantedOnce` | packages/wotex-matter/native/src/bridge_storage.cpp:42-67 | over every history of allocations, removals, failed commits and reopenings a number is granted at most once |
| `EndpointStore.LiveNumbersAreDistinct` | packages/wotex-matter/native/src/bridge_storage.cpp:42-77 | while no commit has failed since opening, live numbers are distinct, below the next one and granted to the thing that holds them |
| `EndpointStore.RetiredExactlyWhenGrantedAndNotLive` | packages/wotex-matter/native/src/bridge_storage.cpp:94-102 | while no commit has failed since opening, a number is retired exactly if it was granted and nothing holds it |
| `EndpointStore.AllocationsAreNewOrTheirOwn` | packages/wotex-matter/native/src/bridge_storage.cpp:42-67 | a successful allocation returns the thing's own number, and a new one is above all granted before |
| `EndpointStore.Numbers.Add` | packages/wotex-matter/native/src/bridge_storage.cpp:42-67 | fields after an allocation, a repeated one, a refusal and a failed commit are those the theorems are about |
| `EndpointStore.Numbers.Drop` | packages/wotex-matter/native/src/bridge_storage.cpp:69-77 | fields after a removal, a refusal and a failed commit are those the theorems are about |
| `EndpointStore.Numbers.IsRetired` | packages/wotex-matter/native/src/bridge_storage.cpp:94-102 | the loop over the table decides retirement |

## Left out

- A report prepared for an initial response that fails is not kept, and status and error texts are not modelled.
- JSON decoding and formatting, libcoap, OpenSSL and the Matter SDK: foreign code. Frames are values whose
  text arrives with the event that appends them.
- The worker's command handlers and callbacks are functions on values, not methods on fields; the loops that
  work in place (append, flush, stream pump, report pump) are methods. The order in which a handler sets its
  fields is not captured.
- Callbacks that libcoap might raise synchronously inside a send are not modelled, nor is the short exchange
  service while the worker exits; `Exchange.Abandon` models its state change.
- One clock reading stands for the several a worker handler may make.
- Responses protected without a Partial IV and the replay window are libcoap's and do not appear.
- File permission, symlink, file system and inode checks of the store: only lock exclusivity and the commit
  steps are kept. Where such a check fails the modelled call fails.
- Process set-up, pipes, signals and descriptors of the supervisor: only the supervise loop is modelled, from
  a started child on.
- `bridge_output.cpp` restoring descriptor flags after its loop, which can turn an ended state into a write
  failure, and the notifications it sends once ended.
- BridgeSlots.OutputOwner.Finish: requires that a control slot can be freed, which `BridgeOutputRuns.FinishFindsASlot`
  proves of every reachable state, because the branch without one exits the process.
- BridgeSlots.OutputOwner.Release: requires that the slot is the writer's, which `BridgeOutputRuns.ReleaseIsAlwaysOurs`
  proves of every reachable state, because the other branch exits the process.
- The exit of `bridge_requests.cpp:206-211`, taken when memory runs out between reservation and retention.
- Tickets of another generation stand as id zero, which is never issued, and condition variables as arbitrary wakes.
- The input machine's decoder is a parameter, and its line handling is computed on values inside the byte loop.
- The key/value half of `bridge_storage.cpp` and the file steps of its commit; a commit succeeds, is lost, or
  reaches the disk unnoticed.
- Rendering of replies by the guard and the command handler in `Complete`: only the release of the handler is
  kept.
- `bridge_server.cpp`, `bridge_endpoints.cpp`, `bridge_light.cpp`, `bridge_guard.cpp`, `bridge_process.cpp`,
  `commissioning.cpp`, `interaction.cpp` and the rest of `command.c` and `json.c`: SDK calls and argument range
  checks, on which no theorem here depends.
