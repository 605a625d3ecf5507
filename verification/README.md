# Verification of the Codex agent SDK's event pipeline and lifecycle

The Go SDK drives a `codex app-server` child process over newline-delimited
JSON-RPC. This project models the concurrent core of that SDK in Dafny and
proves what its comments, tests and documentation promise of it.

What is modelled, in the order the data flows:

- **Lines and frames.** Concurrent writers over a pipe with short writes, and
  the line reader (`LineFraming`); the demux read loop as an executable loop
  proved against functions of the line sequence (`DemuxLoop`); the pending table
  shared by `Send`, the read loop and `Close` (`DemuxSends`).
- **Dispatch.** The dispatcher that turns messages into thread state, approval
  context, approval answers and subscriber streams (`Dispatcher`, `Events`), the
  bounded subscriptions (`Subscribers`), the file-approval cache
  (`FileApprovals`), and the three composed from the inbound line to one
  subscriber's stream (`Pipeline`) and to the answers and the threads
  (`Requests`). `Subscriptions` has subscribing race with the dispatcher's exit
  and `Close`.
- **Client and threads.** `Connect` racing with `Close` (`Lifecycle`); turns on
  one thread (`Threads`, `Turns`); compactions and their waiters (`Compaction`).
- **hooks.json.** Install, crash recovery and restore on an abstract directory
  (`HooksFile`).
- **Data structures and codecs.** The stderr ring buffer (`RingBuffer`), the two
  implementations of the length-prefixed frame codec (`HookFrames`), the
  single-flight CLI discovery (`Discovery`), the paged terminal listing
  (`Terminals`), and the array and object forms of agent states (`AgentStates`).

Code that works in place is written as classes and loops, each method's contract
tying the new state to a pure function of the old one. Each concurrent protocol
is a total step function over an action type, in which an action that is not
enabled leaves the state alone; a theorem about every interleaving is a theorem
about `Runs.Exec(Step, FRESH, acts)` for every `acts: seq<Action>`. Beside what
such a theorem forbids, each protocol has lemmas on what can happen: every move of
a call brings it nearer to its end, from every reachable state everyone can come
to an end, and every outcome has its reason in the run. The critical
sections and the steps use the same pure functions where they share a state type
(`DemuxSends`, `Subscribers`, `FileApprovals`, `Lifecycle`).

## Where the code does not keep a promise

The model follows the code. Each of these is a lemma with a concrete run or
input, beside a lemma that says exactly when the promise is kept.

- `closed` and `connected` are atomics that neither lifecycleMu nor c.mu guards.
  A Connect that has seen `closed` unset starts its dispatcher and returns nil
  although Close has begun, and a SubscribeThreadEvents past its checks succeeds
  although the source has ended: `Lifecycle.DispatcherAfterClose`,
  `Lifecycle.LateSuccessIff`, `Subscriptions.SubscribedAfterClose`,
  `Subscriptions.LateSubscriptionIff`. Nothing is orphaned by it
  (`Lifecycle.NothingOrphaned`, `Subscriptions.NoneLeftBehind`).
- `clearActiveTurnID` (threads.go:162) loads and then stores. A terminus of a
  turn that was abandoned can wipe out the id of the turn that has just been
  started: `Turns.LateTerminusClearsNewTurn`, `Turns.ClearsOtherIff`.
- `CompactResult.Wait` (compact_result.go:33-39) is documented to return the same
  event again. It does not cache it, and no two Waits ever return the same
  notification: `Compaction.SecondWaitHangs`, `Compaction.NeverTheSameEvent`. When
  a later Wait can come back at all is `Compaction.WaitReturnsIff`, and
  `Compaction.AwaitedIsAbandonedIff` in a caller's terms. A result on which a Wait
  has come back is no longer woken by `Close` either: `Compaction.CloseWakes`.
- Give-up fires before the marker of its own malformed run is delivered
  (demux.go:344-350). With a threshold of one the subprocess can be terminated
  with no marker queued: `DemuxLoop.GiveUpWithoutMarker`; with a higher one it
  cannot: `DemuxLoop.GiveUpAfterMarker`.
- One marker covers a malformed run, so a subscription made after the marker was
  handled gets no gap for the rest of the run, and only such a one:
  `Pipeline.MissesTailIff`.
- Crash recovery of `hooks.json` (client_hookbridge.go:284) reads the clock
  twice. A restart whose two readings fall on either side of a backup's sixtieth
  second, or one under the same PID within the minute, can back the SDK's own file
  up as the user's: `HooksFile.StraddlingStartLoses`,
  `HooksFile.SamePidRestartLoses`. It need not: after a crash before the first
  write there is nothing but the user's file to back up. So the exact statement is
  about the backup step: the user's bytes are safe exactly when every backup step
  is sound (`HooksFile.SafeIffSound`), which after any other restart it is
  (`HooksFile.RestartsAreSound`).
- A user who had no `hooks.json` gets the SDK's one adopted as his own after a
  crash: `HooksFile.AbsentFileComesBackIff`.
- `removeThreadEventSubscriber` takes a subscription out of the table before it
  closes it, so the dispatcher can have exited while that channel is still open:
  `Subscriptions.RemoverWindow`, `Subscriptions.NoneLeftBehind`.
- The two frame readers report a missing body differently:
  `HookFrames.ReadersAgreeIff`.
- `AgentStates.Entries` promises a deterministic order; its comparator is an
  order only on some key sets: `AgentStates.OrderIff`, `AgentStates.CyclicKeys`.

## Model

| member | source | states |
|---|---|---|
| RingBuffer.Copy | internal/transport/ring_buffer.go:47-54 | Go's copy into the ring: how much fits, and that nothing outside the written stretch changes |
| RingBuffer.InPlaceOver | internal/transport/ring_buffer.go:52-61 | overwriting the oldest bytes without wrapping keeps exactly the most recent ones, read from the new position |
| RingBuffer.WrappedOver | internal/transport/ring_buffer.go:52-55 | the same for a write that runs past the end and continues at the start |
| RingBuffer.OversizeOver | internal/transport/ring_buffer.go:46-51 | a write at least as long as the ring leaves its own end |
| RingBuffer.RingBuffer.constructor | internal/transport/ring_buffer.go:18-21 | a new buffer of any size, zero included, is empty |
| RingBuffer.RingBuffer.Write | internal/transport/ring_buffer.go:23-63 | reports the full length; afterwards the buffer holds the last `size` bytes of what it held followed by the write, in fill, fill-and-wrap, oversize and wrap-around alike |
| RingBuffer.RingBuffer.Overwrite | internal/transport/ring_buffer.go:45-63 | the full-mode part of Write: same contents law, still full |
| RingBuffer.RingBuffer.String | internal/transport/ring_buffer.go:66-77 | the retained bytes, oldest first |
| RingBuffer.TailOfTail | internal/transport/ring_buffer.go:10-17 | dropping old bytes early never changes what remains in the end |
| RingBuffer.KeepsMostRecent | internal/transport/ring_buffer.go:10-77 | for every series of writes of any sizes the contents are the last min(total, size) bytes of their concatenation |
| LineFraming.LineWriter.WriteFrame | internal/jsonrpc/framing.go:41-61 | under any positive short writes, success puts the whole frame on the wire and failure a strict prefix of it; it succeeds if the pipe never breaks |
| LineFraming.StepKeepsInv | internal/jsonrpc/framing.go:41-74 | every step of writers, short writes, Close and a breaking pipe keeps the wire whole frames and one frame under way |
| LineFraming.WholeFramesInLockOrder | internal/jsonrpc/framing.go:41-74 | in every interleaving the wire is whole frames in lock order and at most one truncated one, cut for good only by Close or by a pipe that broke; the calls that returned nil are exactly those whose frame is whole |
| LineFraming.WriterCanLeave | internal/jsonrpc/framing.go:41-61 | from wherever a run has got to, the writer in the mutex can leave, and on a pipe that takes bytes it leaves with nil |
| LineFraming.WriteThrough | internal/jsonrpc/framing.go:41-61 | a writer that finds the mutex free and the pipe open adds exactly its payload and a newline, in any two short writes, and returns nil |
| LineFraming.NothingAfterRefusal | internal/jsonrpc/framing.go:63-74 | after Close or a broken pipe the wire never changes, and no call that takes the mutex from then on returns nil |
| LineFraming.LineReader.constructor | internal/jsonrpc/framing.go:90-97 | sizes below the minimum are raised to it |
| LineFraming.LineReader.ReadLine | internal/jsonrpc/framing.go:101-116 | up to and including the first line that is too long: one line without its newline, end of input, or the too-long error, and what stays unread |
| LineFraming.ReadMeaning | internal/jsonrpc/framing.go:101-116 | what one read makes of a piece up to a newline or to the end of input: too long when it fills the reader, otherwise the line but for one trailing carriage return, and nothing at the end |
| LineFraming.ReadBack | internal/jsonrpc/framing.go:41-116 | a written frame reads back with the rest untouched exactly when it has no raw newline, does not end in a carriage return, and fits the reader |
| LineFraming.LinesOfFrames | internal/jsonrpc/framing.go:101-116 | splitting any series of readable frames into lines gives back the frames and reads on |
| LineFraming.ReaderSeesAcceptedFrames | internal/jsonrpc/framing.go:41-116 | end to end: the reader sees, in lock order, every payload whose call returned nil, and at most one line more |
| LineFraming.TruncatedFrameIsAtMostOneLine | internal/jsonrpc/framing.go:101-116 | what is left of a truncated frame is at most one line |
| DemuxLoop.HandleDecodeFailure | internal/jsonrpc/demux.go:335-388 | gives up exactly at the threshold and before the marker of its own run is delivered; queues a marker exactly when none is queued and the delivery succeeds, stops when it does not |
| DemuxLoop.ClassifyAndRoute | internal/jsonrpc/demux.go:397-443 | what each kind of decoded line adds to the queue and to the replies, when the loop goes on, and whether a malformed run is open afterwards |
| DemuxLoop.HandleLine | internal/jsonrpc/demux.go:302-330 | one non-blank line keeps the loop's knowledge or ends the loop with everything its end promises |
| DemuxLoop.ReadLoop | internal/jsonrpc/demux.go:277-443 | queued messages and routed replies are functions of the lines read; it stops at the first give-up point and nowhere else, or because a delivery was stopped; give-up fires once, there, and a marker was queued by then exactly when the malformed run was already open |
| DemuxLoop.NoGiveUpMeans | internal/jsonrpc/demux.go:367-388 | what ReadLoop promises of the lines it read: no earlier point was a give-up point |
| DemuxLoop.LineMeaning | internal/jsonrpc/demux.go:397-443 | by the line alone: an id and a method make a server request with that id, a method alone a notification, an id alone a reply, anything else at most a marker |
| DemuxLoop.RunMeaning | internal/jsonrpc/demux.go:335-360 | what opens a malformed run and what ends it: a line that does not decode, or decodes to neither call nor reply, opens or continues one, any other decoded line ends it, a blank line does neither |
| DemuxLoop.BadRunStep | internal/jsonrpc/demux.go:345-353 | how the open-run flag follows the lines, blank ones skipped |
| DemuxLoop.GiveUpIff | internal/jsonrpc/demux.go:367-388 | the loop's counter decides exactly whether `max` undecodable lines with no decodable one between them have been seen |
| DemuxLoop.RunMarker | internal/jsonrpc/demux.go:335-360 | every bad line belongs to a run whose first line carries its one marker |
| DemuxLoop.MarkersSeparated | internal/jsonrpc/demux.go:335-360 | between two markers lies a line that decodes and classifies |
| DemuxLoop.EmittedMono | internal/jsonrpc/demux.go:277-332 | what was queued is never taken back |
| DemuxLoop.FramesInOrder | internal/jsonrpc/demux.go:277-443 | markers left out, exactly the method frames come out, in arrival order |
| DemuxLoop.GiveUpHasMarker | internal/jsonrpc/demux.go:335-360 | by the end of a give-up line a marker has been emitted |
| DemuxLoop.GiveUpAfterMarker | internal/jsonrpc/demux.go:344-353 | with a threshold above one the run is already open at a give-up point, so a marker was queued before give-up fired |
| DemuxLoop.GiveUpWithoutMarker | internal/jsonrpc/demux.go:344-353 | with a threshold of one an input on which give-up fires before anything is queued |
| DemuxSends.Demux.NextId | internal/jsonrpc/ids.go:18-25 | ids count up from one |
| DemuxSends.Demux.Register | internal/jsonrpc/demux.go:178-186 | registers unless closed |
| DemuxSends.Demux.Close | internal/jsonrpc/demux.go:247-266 | empties the table and stops, once |
| DemuxSends.SectionsAreMethods | internal/jsonrpc/demux.go:166-266 | the critical sections of calls, read loop and Close do what the demux's methods do |
| DemuxSends.StepKeepsInv | internal/jsonrpc/demux.go:166-266 | every step of Sends, read loop and Close keeps ids distinct, the table to calls in flight, and each reply with its own call |
| DemuxSends.OwnReplyOnly | internal/jsonrpc/demux.go:166-207 | in every interleaving a Send that returns a response returns the one with its id |
| DemuxSends.NoReplyLost | internal/jsonrpc/demux.go:414-427 | every reply that arrived for a pending call is what that call returned, or in its channel, or in the hands of the read loop |
| DemuxSends.AnsweredSendReturns | internal/jsonrpc/demux.go:199-201 | a waiting Send for which a reply has arrived can return, and returns exactly that reply |
| DemuxSends.OutcomesExplained | internal/jsonrpc/demux.go:166-207 | why each Send ended: a response arrived for it, or the table is closed, its context is done, its write failed, or its parameters do not marshal, each under its own error |
| DemuxSends.SendGetsResponse | internal/jsonrpc/demux.go:166-201 | a run in which a Send gets its response |
| DemuxSends.RoutingNeverBlocks | internal/jsonrpc/demux.go:414-427 | no reply channel ever holds two replies, so the read loop's send into it never blocks |
| DemuxSends.PendingIffInFlight | internal/jsonrpc/demux.go:414-424 | until Close takes the table an id is pending exactly while a Send with it is in flight, and the lookup finds that Send; afterwards it finds none |
| DemuxSends.DistinctIds | internal/jsonrpc/ids.go:18-25 | two Sends never share an id |
| DemuxSends.NoRegistrationAfterClose | internal/jsonrpc/demux.go:178-186 | after Close no Send ever registers |
| DemuxSends.StoppedSendsDrain | internal/jsonrpc/demux.go:199-207 | after Close every unfinished Send has a move of its own towards returning, and no party can set it back |
| DemuxSends.EveryMoveCounts | internal/jsonrpc/demux.go:166-207 | every move of a Send, failures and cancellation included, brings it nearer to its return |
| DemuxSends.CloseEndsSends | internal/jsonrpc/demux.go:247-266 | whatever a Send was doing when Close took the table, Close lets it return without its context being done |
| Subscribers.Subscriber.Deliver | client_thread_events.go:119-140 | queues the event, or, when only the reserved slot is left, an overflow gap, and closes |
| Subscribers.Subscriber.Fail | client_thread_events.go:153-165 | an open stream gets the gap and closes; a closed one is untouched |
| Subscribers.Subscriber.Close | client_thread_events.go:142-151 | closes once |
| Subscribers.Subscriber.Receive | client_thread_events.go:101-107 | the consumer takes the oldest envelope |
| Subscribers.StreamShape | client_thread_events.go:109-165 | under any interleaving: an open queue never exceeds its capacity; what was sent is everything offered up to the close and at most one gap after it; the consumer gets it in order without loss |
| Subscribers.ClosedStaysClosed | client_thread_events.go:109-165 | nothing is ever sent to a closed stream |
| FileApprovals.FileApprovalCache.Remember | client_file_approval.go:24-53 | the cache becomes the pure function of itself and the event |
| FileApprovals.FileApprovalCache.UpdatePatch | client_file_approval.go:55-68 | a patch replaces an active key's set or invalidates it; without identity it clears everything |
| FileApprovals.FileApprovalCache.DropTurn | client_file_approval.go:41-51 | exactly the keys of that thread and turn go |
| FileApprovals.FileApprovalCache.Resolve | client_file_approval.go:70-96 | succeeds exactly when the request is resolvable, and leaves the shown changes and the legacy fields as the callback must see them |
| FileApprovals.CacheMeansHistory | client_file_approval.go:18-68 | a key is in the cache exactly when a start for it had no later end, and its value is that of its latest start or patch |
| FileApprovals.ActiveStep | client_file_approval.go:24-53 | how one entry of the history changes whether a key is active |
| FileApprovals.LatePatch | client_file_approval.go:55-68 | a patch never revives an inactive key |
| FileApprovals.ResolutionMeaning | client_file_approval.go:70-96 | what a successful resolution shows: the latest valid set of an active key, the one inline change of an inactive one, nothing only for an identified non-blank root grant; every path non-blank, every operation known, an invalidated key denied |
| Dispatcher.OfferAll | client_thread_events.go:213-226 | every subscription of the snapshot is offered the event; the set returned is of those that are closed |
| Dispatcher.FailAll | client_thread_events.go:228-241 | every subscription of the snapshot is failed; the set returned is of those this closed |
| Dispatcher.Client.RegisterThread | client_dispatch.go:178-185 | routes the id and remembers it as the latest, but not once Close has dropped the table |
| Dispatcher.Client.DropTables | client.go:462-472 | Close's own pass: every stream closes with nothing more sent, and nothing is routed or registered any more |
| Dispatcher.Client.UnregisterThread | client_dispatch.go:191-200 | unroutes the id and forgets it if it was the latest |
| Dispatcher.Client.Subscribe | client_thread_events.go:171-211 | refused exactly when closed, disconnected or out of range; otherwise a fresh empty stream under a new id |
| Dispatcher.Client.RemoveSubscriber | client_thread_events.go:254-261 | closes the stream, and takes its id out only if the id still means it |
| Dispatcher.Client.PublishThreadEvent | client_thread_events.go:213-226 | every stream steps by the event; exactly the open ones stay in the table |
| Dispatcher.Client.FailThreadEventSubscriptions | client_thread_events.go:228-241 | every stream steps by the gap; those that were open leave the table |
| Dispatcher.Client.CloseThreadEventSubscriptions | client_thread_events.go:243-252 | every stream closes with nothing more sent, and the table is empty |
| Dispatcher.Client.HandleNotification | client_dispatch.go:76-143 | cache, thread and every stream step by the message's one effect |
| Dispatcher.Client.Lose | client_dispatch.go:76-116 | a loss clears the approval context and fails every stream |
| Dispatcher.Client.Route | client_dispatch.go:126-142 | an event goes to the approval cache, its own thread and every stream |
| Dispatcher.Client.HandleServerRequest | client_dispatch.go:145-174 | the answer is that of the approval context at that moment; an unresolvable file change is denied by default |
| Dispatcher.Client.HandleServerMessage | client_dispatch.go:68-74 | one turn of the loop as any one subscriber, the cache and the answers see it |
| Dispatcher.OutcomeStep | client_dispatch.go:28-50 | handling one more message extends effects, answers and cache by what that message is worth |
| Dispatcher.Client.HandleAll | client_dispatch.go:28-50 | after any messages, a subscriber has stepped by exactly their effects, each registered thread was handed what `Requests.ThreadsHandedOwn` says, and each request was answered from the context the messages before it left |
| Dispatcher.Client.Finish | client_dispatch.go:17-23 | on the way out: disconnected, every stream closed, with a source gap exactly when the source was lost, approval context gone |
| Dispatcher.Client.Dispatch | client_dispatch.go:17-66 | the whole run, cancelled or not, with or without subscriptions: the answers given, what the registered threads were handed, and what any subscription in the table at its start went through |
| Pipeline.MessageMeaning | client_dispatch.go:76-143 | the dispatcher does what the messages mean by their parse: a marker, a failed parse or a missing required thread id fails every stream with its own gap and clears the approval context, a thread event is delivered and remembered, nothing else reaches either |
| Pipeline.ContiguousRun | client_dispatch.go:17-143 | no silent loss: a stream is the contiguous run of thread events from its registration up to some message, none before which lost anything, then at most one gap; an open stream has missed nothing; one that ended without a gap was shut by its context, Close or the dispatcher's sweep when it had been through exactly those messages; and the gap for the end of the source comes only after every thread event |
| Pipeline.DispatchIsALife | client_dispatch.go:17-66 | what Dispatch makes of a stream, source gap and sweep included, is one of the lives that ContiguousRun is about |
| Pipeline.NothingAfterLoss | client_dispatch.go:76-143 | nothing at or after a message that lost something is delivered, and once it has been handled the stream is closed: with that loss's gap, or an earlier one, unless it was shut before the dispatcher came to it |
| Pipeline.LossIsAnnounced | client_dispatch.go:76-143 | a stream that nobody has shut by the time a loss has been handled is closed and ends with a gap, that of the first loss it met or of an overflow |
| Pipeline.NoEventPastMalformedRun | internal/jsonrpc/demux.go:277-443 | in terms of lines: a subscription made before a malformed run's marker was handled sees only events of lines before the run, and closes with a gap unless it was shut before the marker was handled |
| Pipeline.MissesTailIff | internal/jsonrpc/demux.go:345-353 | for any lines and any bad line just read, the next event can reach a subscription with no gap and leave it open exactly when it was made after the marker of that line's run was handled |
| Pipeline.LossForgetsApprovals | client_dispatch.go:78-112 | after a loss a file-change key is inactive until its item starts again |
| Requests.EveryRequestAnswered | client_dispatch.go:145-174 | end to end: the ids answered are, in order, exactly those of the lines that carry both an id and a method |
| Requests.FileChangeAnswer | client_file_approval.go:70-96 | a file-change request is put to the callback exactly when there is one and the messages before it allow it, and then with exactly the latest set of an active key, the one inline change of an inactive one, or nothing; otherwise, an invalidated key included, it is denied by default |
| Requests.OtherAnswers | client_dispatch.go:145-174 | an unreadable request gets an error; any other kind is the callback's, or denied by default without one |
| Requests.ThreadsHandedOwn | client_dispatch.go:126-142 | a registered thread is handed exactly its own events, in order |
| Subscriptions.StepKeepsInv | client_thread_events.go:171-261 | every returned channel is in the table, in the dispatcher's sweep, being removed, or closed |
| Subscriptions.NoneLeftBehind | client_thread_events.go:171-261 | once the dispatcher has exited every channel ever returned is closed, but for those a context goroutine has just taken out and is about to close; all are exactly when those are |
| Subscriptions.AllShutWithoutRemovals | client_thread_events.go:171-261 | so all are when no subscription's context was done |
| Subscriptions.AllCanBeShut | client_dispatch.go:17-23 | once the dispatcher has started, the moves of the calls under way, of the dispatcher and of the removers alone close every channel ever returned |
| Subscriptions.CloseSweepsAll | client.go:462-466 | Close's own pass leaves no channel open but those already in the hands of the dispatcher or of a remover |
| Subscriptions.ClosedAndGone | client_thread_events.go:213-241 | a channel the dispatcher closed and took out of the table is closed and out of it for good |
| Subscriptions.RemoverWindow | client_thread_events.go:254-261 | that exception happens |
| Subscriptions.NoLateSubscription | client_thread_events.go:186-201 | once the source has ended or Close has begun, only the call that holds c.mu past its checks, or may still pass them while connected, can succeed; none once the dispatcher has taken the table |
| Subscriptions.LateSubscriptionIff | client_thread_events.go:186-201 | and exactly that call can |
| Subscriptions.DisconnectedRefuses | client_thread_events.go:186-193 | once Close has cleared `connected`, with no dispatcher about to start, only a call that had loaded it before succeeds |
| Subscriptions.SubscribedAfterClose | client_thread_events.go:186-201 | a run in which a subscription succeeds after Close has begun and the source has ended |
| Lifecycle.Client.BeginConnect | client.go:213-239 | passes exactly when not closed, connected or started, and then is the one that started |
| Lifecycle.Client.PublishConnectingTransport | client.go:254-263 | publishes exactly when not closed |
| Lifecycle.Client.StartDispatcher | client.go:265-281 | starts and connects exactly when not closed |
| Lifecycle.SnapshotSeesAll | client.go:519-529 | what closeSnapshot gets is all there is to close: any transport neither closed nor its own Connect's job, and any dispatcher not cancelled |
| Lifecycle.SectionsAreMethods | client.go:213-281 | undisturbed, the two halves of each section of Connect under lifecycleMu, the load of `closed` and the rest, do what the client's method does |
| Lifecycle.CloseSectionsAreMethods | client.go:448-529 | so do the sections of Close, and both takers of the hook bridge |
| Lifecycle.Client.TakeHookBridgeForClose | client_hookbridge.go:156-178 | the bridge is handed to one taker |
| Lifecycle.KeepsTransports | client.go:110-174 | every step keeps each transport closed, in the winning Close's sight, or its own Connect's job |
| Lifecycle.KeepsDispatchers | client.go:265-281 | every step keeps each dispatcher cancelled or in Close's sight |
| Lifecycle.KeepsBridgeHeld | client_hookbridge.go:138-178 | a live bridge is in the fields or in the hands of someone tearing it down |
| Lifecycle.KeepsBridgeOwned | client_hookbridge.go:138-178 | a bridge in the fields belongs to a Connect past its setup; one set up too late falls to that Connect |
| Lifecycle.AtMostOneConnect | client.go:213-239 | at most one Connect ever gets past beginConnect |
| Lifecycle.NothingOrphaned | client.go:110-529 | in every interleaving of any number of Connects and Closes, once all have returned every transport is closed, every dispatcher cancelled, the bridge down, and the client's fields those of a new one but for the closed flag |
| Lifecycle.EveryoneCanReturn | client.go:110-529 | and all can return: from wherever a run has got to, every Connect can by moves of the calls alone, and so can Close once it has begun |
| Lifecycle.EveryMoveCounts | client.go:110-281 | every move of a Connect, failures included, brings it nearer to its return |
| Lifecycle.OutcomesExplained | client.go:110-281 | why each Connect ended: nil only with its hooks set up or not wanted, its transport published, its handshake done and its dispatcher started; an error only because a step of it failed or the client was closed; turned away only because of that or of another Connect |
| Lifecycle.BridgeUpIff | client_hookbridge.go:138-178 | the bridge is up exactly while it is in the fields or in the hands of someone tearing it down |
| Lifecycle.NeverReconnects | client_dispatch.go:17-23 | once the dispatcher has exited the client is disconnected, and stays so |
| Lifecycle.FailedConnectCleansUp | client.go:110-174 | without a Close, a failed Connect closes its transport and tears its bridge down |
| Lifecycle.ClosedForGood | client.go:213-281 | once the closed flag is set only a Connect already past its check, inside the section under lifecycleMu, can still get through: none begins, none succeeds and no dispatcher starts but that of a call that was starting it; no such call is left once Close has its snapshot |
| Lifecycle.LateSuccessIff | client.go:265-281 | and exactly a call that was starting its dispatcher, or had, can return nil |
| Lifecycle.DispatcherAfterClose | client.go:265-281 | a run in which a dispatcher starts and its Connect returns nil after Close has set the flag |
| Threads.Thread.ClearActiveTurnID | threads.go:162-171 | clears for the matching or an unnamed turn; another non-empty turn's id stays |
| Threads.Thread.DeliverEvent | threads.go:94-124 | active id, inbox and compaction channel after an event; nothing once closed; a full inbox or channel drops |
| Threads.ActiveMeaning | threads.go:94-111 | after any events the active turn is the last one started with no end of it, or of an unnamed turn, since |
| Threads.Thread.MarkClosed | threads.go:132-144 | closes once; the installed compaction channel is closed with its buffer intact, and the cell emptied |
| Threads.Thread.InstallCompaction | threads_commands.go:159-172 | refused exactly when closed or one is installed; otherwise a fresh empty channel is |
| Threads.Thread.Detach | compact_result.go:57-62 | empties the cell exactly when it holds this channel |
| Threads.Thread.StreamLoop | threads.go:228-261 | forwards a prefix of the inbox that ends at the first event that ends the stream, or where its patience or the events end |
| Threads.UnknownTurnEnds | threads.go:247-257 | with no known turn id, any terminus ends the stream until a turn announces itself with one, and from then on only that turn's does |
| Turns.StepKeepsLock | threads.go:179-261 | every step keeps exactly the lock's holder starting, storing or streaming, and only the last stream open |
| Turns.OneTurnAtATime | threads.go:179-261 | in every interleaving of RunStreamed and StartReviewStreamed at most one stream reads the inbox; each call takes the lock at most once, and each acquisition is released once, by its taker, before the next |
| Turns.EveryMoveCounts | threads.go:179-261 | every move of a call, a failed request and giving up included, brings it nearer to its end |
| Turns.EveryCallCanEnd | threads.go:179-261 | no call can be kept waiting for good: from wherever a run has got to, every call can still end |
| Turns.NoTurnAfterClose | threads.go:132-182 | markClosed closes the thread for good, and a call made afterwards is over at once |
| Turns.ReaderReachesTerminus | threads.go:228-261 | a stream whose caller keeps reading gets everything the inbox holds up to its turn's first terminus, which ends it and frees the turn lock |
| Turns.ChangeKeepsOrder | threads.go:228-261 | taking, forwarding, giving up and starting keep the streams in inbox order |
| Turns.StreamsInOrder | threads.go:179-261 | the streams in lock order split what has left the inbox into contiguous stretches: nothing duplicated, reordered, invented or skipped, and an event taken and never forwarded is the one an abandoned stream held; a stream of a known turn that ended at a terminus ended at its first |
| Turns.InboxTakesInOrder | threads.go:94-124 | every event delivered to the open thread is offered to the inbox once and in order, and the inbox takes exactly those offered while it had room |
| Turns.ClearsOtherIff | threads.go:162-171 | a terminus of one turn clears another's id exactly when the last id that a call stored since its delivery began is another turn's |
| Turns.UndisturbedDelivery | threads.go:94-124 | without interference a delivery leaves the active id that deliverEvent's contract says |
| Turns.LateTerminusClearsNewTurn | threads.go:162-171 | a run in which the late terminus of an abandoned turn clears the id of the turn that is streaming |
| Compaction.ChannelDiscipline | threads_commands.go:159-190 | at most one subscription installed, that of a Compact under way or returned; no channel closed twice or overfilled, and none that a delivery is about to send on closed |
| Compaction.EveryMoveCounts | threads_commands.go:159-190 | every move of a Compact, a refused or failed request included, brings it nearer to its end, and none is ever without one |
| Compaction.CompactOutcomes | threads_commands.go:159-190 | why each Compact ended: it returned only once installed, sent and answered, and failed only refused, by the server, the client's closing, or another Compact |
| Compaction.WaitOutcomes | compact_result.go:40-55 | why each Wait came back: with a notification that was delivered, as closed only when the closed channel was empty, or with its context's error only when that was done |
| Compaction.ContextEndsWait | compact_result.go:40-55 | a blocked Wait whose context is done returns that |
| Compaction.CloseFinishes | client.go:462-470 | Close gets through, and a thread still registered is closed and its cell emptied |
| Compaction.UnregisteredIsSpared | client.go:462-470 | a thread unregistered before Close came to it is never closed by it |
| Compaction.CloseWakes | client.go:455-470 | every returned result was installed while its thread was open; after Close of a registered thread its Wait comes back exactly when no Wait on it had, or an event is left |
| Compaction.NotificationNotMissed | threads_commands.go:164-171 | once the request is sent, a notification delivered to the open thread is in the channel, as long as no Wait on the result has come back |
| Compaction.WaitReturnsIff | compact_result.go:40-62 | a blocked Wait, first or later, can come back other than by its context exactly when its channel is not abandoned: out of the cell, drained, not closed and not in the dispatcher's hand |
| Compaction.AwaitedIsAbandonedIff | compact_result.go:33-62 | with the thread open and no delivery under way, a result on which a Wait has come back has such a channel exactly when no event is left in it |
| Compaction.NeverTheSameEvent | compact_result.go:33-55 | no two Waits ever return the same notification |
| Compaction.AbandonedForGood | compact_result.go:40-62 | an abandoned channel stays so through every later step, Close included: a Wait on it ends only by its context |
| Compaction.SecondWaitHangs | compact_result.go:33-55 | a run whose first Wait gets the event and whose second Wait is on such a channel |
| HooksFile.HookInstaller.RecoverStaleBackups | client_hookbridge.go:381-438 | the oldest stale backup becomes hooks.json and exactly the stale ones go |
| HooksFile.HookInstaller.DetectConcurrentSDK | client_hookbridge.go:341-373 | refuses exactly when another process's backup is less than sixty seconds old |
| HooksFile.HookInstaller.Install | client_hookbridge.go:284-332 | an existing file is backed up, its own bytes, under this PID before the SDK's is written; nothing else changes |
| HooksFile.HookInstaller.Restore | client_hookbridge.go:449-480 | the backup comes back and goes, or the SDK's file goes, or a missing backup leaves everything; nothing else changes |
| HooksFile.RecoveryIsRecovered | client_hookbridge.go:381-438 | the crash-prone steps of recovery, uninterrupted, do what the method does |
| HooksFile.InstallationIsInstalled | client_hookbridge.go:297-326 | so do those of installing |
| HooksFile.ClosingIsRestored | client_hookbridge.go:449-480 | and those of closing |
| HooksFile.InstallThenClose | client_hookbridge.go:284-480 | installing and closing undisturbed leaves hooks.json with the bytes it had, or absent if it was, and no backup of this process |
| HooksFile.OldestBackupWins | client_hookbridge.go:381-438 | what recovery leaves in hooks.json is the data of a stale backup than which none is older, and no stale backup is left |
| HooksFile.StepKeepsSafe | client_hookbridge.go:284-480 | every file operation, and a crash, keeps the user's bytes in hooks.json or the single backup, a backup step if it is sound: adds no second backup and changes no existing one |
| HooksFile.BackIsSafeIff | client_hookbridge.go:301-306 | a backup step keeps them exactly when it is sound |
| HooksFile.SafeIffSound | client_hookbridge.go:284-480 | over every run of lifetimes with crashes between any two file operations, the user's bytes are always in hooks.json or the single backup exactly when every backup step is sound |
| HooksFile.RestartsAreSound | client_hookbridge.go:341-438 | which they are when every restart is under a PID whose own backup, if it left one, is old enough, and no backup turns old between the clock readings of recovery and detection |
| HooksFile.UserBytesSurvive | client_hookbridge.go:284-480 | over every run of lifetimes with crashes between any two file operations and such restarts, the user's bytes are always in hooks.json or the single backup |
| HooksFile.CleanCloseRestores | client_hookbridge.go:449-480 | whatever crashed before, as long as the user's bytes were safe, closing restores them and leaves no backup |
| HooksFile.CleanLifetimes | client_hookbridge.go:284-480 | any number of lifetimes without a crash leave hooks.json byte-identical, or absent, and no backup |
| HooksFile.AbsentFileComesBackIff | client_hookbridge.go:284-480 | a user without hooks.json has none again exactly when no process was killed while its own was in place |
| HooksFile.SamePidRestartLoses | client_hookbridge.go:354-358 | a same-PID restart within the minute loses the user's bytes |
| HooksFile.StraddlingStartLoses | client_hookbridge.go:341-438 | so do four differing PIDs, one of which reads its clock at seconds 59 and 60 |
| HookFrames.HeaderInverse | internal/hookbridge/listener.go:234-249 | big-endian encoding and decoding are inverse on every 32-bit value and every four bytes |
| HookFrames.WireFormat | internal/hookbridge/listener.go:234-242 | a frame is four bytes of length, most significant first, and the payload |
| HookFrames.Connection.ReadFull | internal/hookbridge/listener.go:244-260 | fills the buffer from any chunking of the stream, or says end of file, unexpected end or broken connection as io.ReadFull does |
| HookFrames.Connection.ReadFrame | internal/hookbridge/listener.go:244-261 | either implementation's result and unread rest as a function of the bytes to come |
| HookFrames.Writer.WriteFrame | cmd/codex-sdk-hook-shim/main.go:134-144 | header and body, or a prefix of the frame when a write fails |
| HookFrames.FrameRoundTrip | internal/hookbridge/listener.go:234-261 | a frame reads back, the rest untouched, exactly when its payload is at most 16 MiB |
| HookFrames.RoundTrip | cmd/codex-sdk-hook-shim/main.go:134-163 | any list of such payloads, read by either side, comes back with the rest untouched |
| HookFrames.StrictPrefixFails | internal/hookbridge/listener.go:244-261 | every strict prefix of a frame fails to read, and with which error on which side |
| HookFrames.ReadersAgreeIff | cmd/codex-sdk-hook-shim/main.go:148-163 | the two readers agree on every stream but one that ends right after the header of a non-empty frame |
| Discovery.CliDiscoveryCache.Enter | internal/transport/cli_discovery.go:44-61 | a cached path answers, else a running flight is joined, else one is started |
| Discovery.CliDiscoveryCache.Finish | internal/transport/cli_discovery.go:63-74 | only a success changes the path; the flight is over and carries the result |
| Discovery.SingleFlight | internal/transport/cli_discovery.go:44-74 | in every interleaving at most one discovery runs, and leader and waiters return their flight's result |
| Discovery.EveryoneGetsTheDiscovery | internal/transport/cli_discovery.go:44-74 | what the discovery came back with is what its leader returns, and everyone who waited for it |
| Discovery.EveryCallerIsServed | internal/transport/cli_discovery.go:44-61 | a new caller waits for the flight that is running, or gets the path that an earlier one found |
| Discovery.StartsAnewIff | internal/transport/cli_discovery.go:44-74 | a caller starts a discovery exactly when none runs and none so far found a non-empty path |
| Discovery.CachedForGood | internal/transport/cli_discovery.go:44-74 | after one has, none ever starts again and every later caller gets that path |
| Terminals.AppendPage | background_terminals.go:41-50 | the rows are appended, or the first malformed or duplicate one is the error, in row order |
| Terminals.ListBackgroundTerminals | background_terminals.go:27-61 | against any server: at most 100 requests, each with the cursor the server named and none twice; returns all pages' rows in order exactly when a whole well-formed listing exists, and otherwise the error of the place where it got stuck |
| Terminals.OneWay | background_terminals.go:36-59 | a server's cursors can be followed in one way only |
| Terminals.WholeMeaning | background_terminals.go:27-61 | a whole listing is exactly at most 100 pages, each but the last naming the next request's cursor, the last none or an empty one, no cursor twice, rows with both ids and no process twice |
| Terminals.RowsMeaning | background_terminals.go:27-61 | its rows are its pages' rows in order |
| Terminals.StuckIsIncomplete | background_terminals.go:27-61 | where the listing stops with an error there is no whole listing to be had |
| Terminals.CompleteIsUnique | background_terminals.go:27-61 | the listing returned is the only whole one |
| AgentStates.Itoa | types/items.go:373-375 | a decimal numeral whose value is the index |
| AgentStates.AtoiOfItoa | types/items.go:336-341 | the key of an array index is a number again, with that value |
| AgentStates.AtoiOfSigned | types/items.go:336-341 | signed numerals are numbers too, as far as 64 bits go |
| AgentStates.LexOrder | types/items.go:341-341 | string comparison is a strict total order |
| AgentStates.OrderIff | types/items.go:335-342 | the comparator is a strict total order exactly when no two keys are the same number and no other key lies between two numbers that strings order the other way round |
| AgentStates.UniformKeysAreOrdered | types/items.go:335-342 | which covers keys that are all plain numbers and keys none of which is one |
| AgentStates.CyclicKeys | types/items.go:335-342 | on 9, 10 and 1a the comparator goes round in a circle and no arrangement is sorted |
| AgentStates.OneArrangement | types/items.go:325-350 | where it is an order there is one sorted arrangement, so the entries are deterministic |
| AgentStates.SortKeys | types/items.go:335-342 | a rearrangement, sorted whenever the comparator is an order |
| AgentStates.UnmarshalJSON | types/items.go:352-386 | nothing, an object, an array and anything else, decodable or not |
| AgentStates.ArrayState | types/items.go:373-376 | key i of a decoded array holds its i-th state |
| AgentStates.ArrayKey | types/items.go:373-376 | and there are no other keys |
| AgentStates.Entries | types/items.go:327-350 | every key once, with its state, in sorted order whenever there is one |
| AgentStates.ArraysKeepTheirOrder | types/items.go:325-386 | a decoded array's entries are its states in their order |

## Left out

- JSON decoding and the per-method parsers: a line is undecodable or has its id, method and body; parsing a body is an arbitrary function.
- The server answering an id twice: `DemuxSends` takes section 5 of the JSON-RPC 2.0 specification for granted, as the code's own comment does.
- DemuxSends.Demux.NextId: does not model the wrap-around of the 64-bit counter after 2^64 requests.
- DemuxLoop.ReadLoop: a delivery succeeds or is stopped; that it first tries and then blocks, and reports back-pressure, is not modelled.
- Dispatcher.Client.Dispatch: follows the ordered message channel, the one Connect uses; the order in which select would interleave the two separate channels is not modelled.
- Dispatcher.Client.HandleAll: follows one subscription that is in the table at the start; those made while it runs are the lives of `Pipeline`.
- Dispatcher.Client.HandleNotification: a registered thread is handed every event here; its inbox, active id and closed flag are `Threads` and `Turns`.
- Dispatcher.Client.PublishThreadEvent: takes closed subscriptions out of the table after the loop, where the source does it one by one in the loop; between a subscription's closing and its removal it is only skipped.
- Dispatcher.Client.Finish: the cause of the source gap is not carried.
- Subscribers.Subscriber.Deliver: the channel is the queue of what was sent and not yet read; parked receivers are not modelled.
- FileApprovals.FileApprovalCache.Remember: changes are values, so the copying of the `Kind` pointers is not modelled; neither is the move path inside them.
- LineFraming.LineWriter.WriteFrame: does not model a pipe that takes the last byte and reports an error all the same, nor one that accepts nothing without an error, on which the source would spin.
- LineFraming.LineReader.ReadLine: says nothing about a call after a line that was too long, which the read loop never makes and where the scanner's own behaviour counts. The scanner is its size limit and its line splitting; a read error other than a line that is too long ends the bytes like end of input.
- Threads.Thread.StreamLoop: its context and the thread's end come as a number of forwarded events; an event taken from the inbox and dropped by either is in `Turns`.
- Turns.StreamsInOrder: says nothing about a stream whose turn id was never known; `Threads.UnknownTurnEnds` covers where it ends.
- Compaction.CloseWakes: says nothing about a thread that was unregistered before Close, which Close does not touch.
- HooksFile.UserBytesSurvive: needs restarts as `HooksFile.RestartsAreSound` describes them, for which the code gives no guarantee; see the section above.
- HooksFile.HookInstaller.Install: file operations succeed and are atomic, backup names are their PID, a failing GenerateHooksJSON and the isolated CODEX_HOME mode are left out.
- HookFrames.Connection.ReadFrame: deadlines and message texts are left out; errors are their kind.
- Discovery.CliDiscoveryCache.Finish: a discovery that panics, and so never finishes its flight, is not modelled.
- AgentStates.SortKeys: stands for sort.Slice by what it promises; on keys the comparator does not order, nothing but the rearrangement is claimed.
- `CompactResult.Wait` blocks on three channels at once, so it is steps of `Compaction` and has no method of its own.
- The subprocess, its signals and timers, version probing, sockets, logging and observer telemetry.
- The request wrappers, option builders, error types, and `Thread.Run`, which only buffers a stream.
- Liveness that depends on the server, on callers reading their channels, or on callbacks returning.
