# Bowerbird, modelled and proved in Dafny

Bowerbird records the hook events of coding-agent sessions. A small *shim* sends each hook to a local
*daemon*, which appends it to an event log, keeps one projection row a session, and tells subscribers over
WebSocket. This project models the daemon's event-sourced core and its subscriber protocol, and the
self-contained algorithms around them, and proves what they are for.

`dafny verify dfyconfig.toml` checks everything. One module stands for one component:

| module | what it models |
|---|---|
| `Protocol` | events, envelopes, states, keys: the types everything shares |
| `StateMachine`, `History` | the state machine of a session, and what its state says about its whole history |
| `Projection` | the log, the table that caches its fold, the one transaction that writes both, and what it publishes |
| `Store` | the class that owns them: conditional writes, pid supersession, the liveness probe, rebuild of lost rows |
| `EndedPayloads` | the payload of a synthetic end, read back |
| `DaemonRuns` | runs: ingest, supersession, probe and lifecycle markers interleave on one writer connection |
| `GatedStream` | why subscribers are right although most commits send no state |
| `Topic`, `Hub` | topic grammar and coverage; the lossy broadcast ring |
| `Connection` | a WebSocket connection as a class: subscriptions, snapshots, lag coalescing |
| `Coverage` | runs of a connection beside the daemon: what it skips in a snapshot is never stale |
| `Drops` | runs of a connection that loses messages: what its `Dropped` frames say |
| `IngestHandler`, `IngestQueue`, `IngestWriter` | the reply to a hook, the queue up to the end of the recording, the writer |
| `Export`, `Replay` | exporting a session page by page, replaying the file, and what survives |
| `Utf8`, `ShimSocket` | the shim's bounded writes and reads and its parsing of the reply |
| `Calendar` | the shim's date arithmetic against the Gregorian calendar |
| `Text`, `Plist` | the LaunchAgent property list, printed and scanned back |
| `HookCommand`, `Install` | recognising, merging and stripping the hooks in the user's settings |

## How the model is built

* Objects the source updates in place are classes: `Store.ProjectionStore` (log, table, broadcast stream),
  `Connection.Connection`, `Hub.BroadcastHub`, `Install.Settings`. Loops are methods with loops. Their contracts
  equate the new state with a function of the old one, and the lemmas are about those functions.
* The writer connection is held from the clock read to the last publication, so clock read and commit are one
  step in `DaemonRuns`, and what is committed and not yet published is `inflight`. A snapshot can be read in
  between. The clock of a run never goes back; what a client sees when it does is `GatedStream.GatedStreamIsRightIff`.
* What the environment decides is a parameter, left arbitrary: whether a write attempt fails and at what time
  it runs (`attempts`), whether a process answers a signal, how a byte stream is cut up, what a queue has room
  for. The JSON reader behind a payload is the field `notificationTag`; the JSON printer and reader of exported
  events are any pair that loses nothing.
* Text is a sequence of characters. Positions in the property list are characters where the source counts
  bytes; every pattern searched for is ASCII, so both find the same text.
* Integer widths are written out where they matter: saturating 64-bit counters and ids in `Connection` and
  `Drops`, saturating subtraction of times, the truncating 32-bit year in `Calendar`.

Where the code and its own comments differ, the model follows the code. A comment on the shim's reply buffer
(`crates/shim/src/socket.rs:98-105`) gives about 2053 bytes as the longest reply; the words before an echoed
text make it up to 2072 (`IngestHandler.ReplyRoundTrip`), which still fits.

## Model

| member | source | states |
|---|---|---|
| `StateMachine.StaleStaysStale` | crates/daemon/src/projection/state.rs:179-192 | Once a stored `Working` reads as `Idle` because it is stale, it reads so at every later time. |
| `StateMachine.ReadsIdleAfterFiveMinutes` | crates/daemon/src/projection/state.rs:179-192 | In plain numbers: a stored `Working` reads as `Idle` iff its last event is more than 300000 ms old, at any two 64-bit times, and no other state reads differently. |
| `Protocol.TagIffSpelling` | crates/daemon/src/projection/session.rs:858-877 | A payload tag reads as a known notification type iff it is that type's wire spelling, and as unknown iff it is none's. |
| `History.HistoryCharacterisation` | crates/daemon/src/projection/state.rs:49-171 | For every history: waiting iff the trailing notifications hold a payload that spells a permission prompt or an elicitation dialog; ended iff the last event that counts is an end; working iff a prompt or tool event is followed only by notifications that spell neither of those nor an idle prompt; idle otherwise. |
| `History.HistoryFacts` | crates/daemon/src/projection/state.rs:56-75 | The stored pid and directory are the last ones any event reported; the start time is the first event's. |
| `History.HistoryStamp` | crates/daemon/src/projection/state.rs:77-171 | The stored last kind and time are those of the last event that is not inert. |
| `Projection.WriteInnerKeepsConsistent` | crates/daemon/src/projection/session.rs:447-580 | A write, committed, skipped, refused or failed, leaves the table exactly what the log calls for. |
| `Projection.RowIsFoldOfHistory` | crates/daemon/src/projection/session.rs:447-580 | A row exists iff its session has events; it stores the fold of the session's own events and the time of the last. |
| `Projection.WriteInnerPublishes` | crates/daemon/src/projection/session.rs:595-632 | What one write publishes is exactly what the longer log owes its subscribers beyond the shorter one. |
| `Projection.PublishedShape` | crates/daemon/src/projection/session.rs:595-632 | What a log owes is its events in commit order without the lifecycle markers, each state directly behind the event that caused it, of the same session and stamped with it. |
| `Projection.WriteSentinelKeepsConsistent` | crates/daemon/src/projection/session.rs:647-767 | A lifecycle marker adds one event, an empty object without process or directory under the daemon's own key, changes no other row, and keeps table and log in agreement. |
| `Projection.WriteSentinelPublishesNothing` | crates/daemon/src/projection/session.rs:647-767 | Lifecycle markers owe subscribers nothing. |
| `Store.ProjectionStore.WriteInner` | crates/daemon/src/projection/session.rs:395-640 | Tables, broadcast stream and outcome are those of the specified transaction, with its four outcomes; agreement of log, table and stream is kept. |
| `Store.ProjectionStore.Write` | crates/daemon/src/projection/session.rs:71-110 | The event comes first in the log; anything after it ends other sessions with its pid; without faults no other live session still claims that pid; a failed write changes nothing. |
| `Store.ProjectionStore.WriteReplayed` | crates/daemon/src/projection/session.rs:121-130 | A replayed item writes its own event and nothing more. |
| `Store.ProjectionStore.SelectNonSentinelSessions` | crates/daemon/src/projection/session.rs:192-240 | The scan lists every row outside the sentinel source once, with its stored state. |
| `Store.ProjectionStore.SupersedeOne` | crates/daemon/src/projection/session.rs:244-351 | One listed row: skipped if it is the successor, unreadable, ended or of another pid, else ended under a guard on state, pid and time, and counted by outcome. |
| `Store.ProjectionStore.SupersedePredecessors` | crates/daemon/src/projection/session.rs:173-363 | Only victims change, all end, and only their ends are logged; without faults no victim is left. |
| `Store.SupersedeSummary` | crates/daemon/src/projection/session.rs:240-351 | The same for the sweep over any listing of the rows, whichever attempts fail. |
| `Store.ProjectionStore.ProbeOne` | crates/daemon/src/projection/liveness.rs:170-275 | One listed row: skipped if unreadable, ended or of a live process, else ended with the reason that applies, under the two-field guard. |
| `Store.ProjectionStore.ProbeListed` | crates/daemon/src/projection/liveness.rs:170-275 | The row loop: the rows are taken in order up to the first one at which the probe finds itself cancelled, and tables, stream and counters are those of the sweep over exactly those. |
| `Store.ProjectionStore.ProbeOnce` | crates/daemon/src/projection/liveness.rs:91-276 | A probe runs iff the scan succeeds; it lists every user-facing row once and takes rows up to cancellation. Whatever fails, a row whose pid is at most 2^31-1 and answers stays as listed; without failures the other live rows taken are ended and ended ones stay; it changes only live rows, and writes for the rows taken alone. |
| `EndedPayloads.EndedPayloadRoundTrip` | crates/daemon/src/projection/liveness.rs:47-70 | The payload of a synthetic end reads back as its reason, pid and time. |
| `Store.ProbeSummary` | crates/daemon/src/projection/liveness.rs:167-276 | The same outcome, spelled out by pid and answer, for the sweep over any listing of the rows. |
| `Store.ProjectionStore.RecomputeRow` | crates/daemon/src/projection/session.rs:822-899 | Recomputes a row as the fold of the session's log, notification types read again from the payloads. |
| `Store.ProjectionStore.FillMissingRows` | crates/daemon/src/projection/session.rs:801-922 | The loop over the sessions fills exactly the missing rows and counts them. |
| `Store.ProjectionStore.RebuildMissingProjections` | crates/daemon/src/projection/session.rs:783-931 | Old rows stay, every session with events gets its row, and the result is how many rows were added. |
| `Store.RebuildRestoresLostRows` | crates/daemon/src/projection/session.rs:783-931 | Delete any set of user-facing rows and rebuild: the table is restored exactly. |
| `DaemonRuns.RunsStayInStep` | crates/daemon/src/projection/session.rs:395-640 | In every reachable state table and log agree, and stream plus in-flight messages are exactly what the log owes. |
| `DaemonRuns.ProjectionEqualsFold` | crates/daemon/src/projection/session.rs:447-580 | At every moment of every run each user-facing row is the fold of its history. |
| `DaemonRuns.PrimaryEnabledIff` | crates/daemon/src/ingest/writer.rs:35-59 | The runs take in every hook of the five kinds and every replayed event of a known kind as soon as the ingest task is free. |
| `DaemonRuns.PublishOrderIsCommitOrder` | crates/daemon/src/projection/session.rs:419-640 | The stream's events are the committed ones in order, short of at most the one in flight, with increasing ids, each state right behind its event. |
| `DaemonRuns.PrimaryKeepsPidDisciplineIff` | crates/daemon/src/projection/session.rs:71-130 | The exact condition for any event, live or replayed, with a pid or without: the discipline survives its write iff it neither revives, without a pid, a session that ended on a pid another one has used since, nor is a replayed event on a pid another session claims. |
| `DaemonRuns.ScanFailsKeepsPidDisciplineIff` | crates/daemon/src/projection/session.rs:192-238 | A supersession scan may fail without harm iff it had no session to end. |
| `DaemonRuns.PidHolderIsLastEmitter` | crates/daemon/src/projection/session.rs:71-363 | In every run from an empty store without such a disruptive step, whatever the probe does in between: between items, a live session claiming a pid is the one of the most recent hook event carrying it; so there is at most one. |
| `DaemonRuns.AttributedRunsAreHarmless` | crates/daemon/src/projection/session.rs:71-110 | Runs in which every hook reports its pid, nothing is replayed and supersession does not fail have no disruptive step. |
| `DaemonRuns.StepKeepsPidDiscipline` | crates/daemon/src/projection/session.rs:173-363 | Every step that is not disruptive, probe steps included, keeps: a claimant is the last emitter or is still listed for supersession exactly as it now is. |
| `DaemonRuns.PrimaryEndsOnceIff` | crates/daemon/src/projection/session.rs:395-640 | The exact condition for any event: its write puts an end directly after an end iff it is an end for a session whose last event is one. |
| `DaemonRuns.NoSessionEndsTwice` | crates/daemon/src/projection/liveness.rs:198-275 | However ingest, replay, supersession and probe interleave and whatever fails, no session's log has an end directly after an end, unless a replayed event is that second end. |
| `DaemonRuns.LiveRunsRepeatNoEnd` | crates/daemon/src/projection/liveness.rs:198-275 | Without replay it never is. |
| `DaemonRuns.ProbeEndsIff` | crates/daemon/src/projection/liveness.rs:198-275 | Under interleaving, the probe's write adds an end iff it goes through, the listed row was live without a pid that can and does answer, and neither state nor pid of the row has changed since; and which end it is, in full. |
| `DaemonRuns.SupersessionEndsIff` | crates/daemon/src/projection/session.rs:244-351 | Likewise supersession's: iff the listed row was another live session on the pid and neither its state nor its pid nor the time of its last event has changed since. |
| `DaemonRuns.SyntheticEndsCarryTheLastPid` | crates/daemon/src/projection/session.rs:479-506 | In every run an end added by the probe or supersession ends a session that had not ended, and carries the pid that session last reported. |
| `DaemonRuns.SupersessionIsARun` | crates/daemon/src/projection/session.rs:240-351 | The store's supersession loop does what a run of the daemon does that takes those rows with nothing in between, whichever attempts fail. |
| `DaemonRuns.ProbeIsARun` | crates/daemon/src/projection/liveness.rs:170-275 | So does the probe's loop. |
| `GatedStream.GateDecidesView` | crates/daemon/src/projection/session.rs:507-632 | With no assumption on the clock: a client shows its read-derived snapshot while the session's later commits are all quiet, and the stored state from the first one that is not. |
| `GatedStream.GatedStreamIsRightIff` | crates/daemon/src/projection/session.rs:507-632 | The exact condition, for any clock: after a later commit the client shows the stored state iff not both the snapshot read a stale `Working` as `Idle` and every later commit to the session was quiet. |
| `GatedStream.GatedStreamRefinesTable` | crates/daemon/src/projection/session.rs:507-632 | In particular the client is right, stale readings included, if no later commit is stamped before the snapshot. |
| `GatedStream.LastPublishedStateIsStored` | crates/daemon/src/projection/session.rs:615-632 | Whatever the clock does, the last state published for a session is its stored state. |
| `GatedStream.ClockStepBackLeavesClientStale` | crates/daemon/src/projection/session.rs:615-632 | A concrete run on the other side of that condition: the clock steps back and a client stays at `Idle` while the session works. |
| `Topic.ParseIffSpelling` | crates/daemon/src/broadcast/event.rs:78-118 | A string parses to a topic iff it is that topic's spelling and its names are non-empty, dot-free and no wildcard. |
| `Topic.EventTopics` | crates/daemon/src/broadcast/event.rs:122-132 | An event goes to exactly three topics: all events, its source's, and its session's under its source. |
| `Topic.StateTopics` | crates/daemon/src/broadcast/event.rs:133-170 | A state goes to exactly three: all sessions, and its session's in either spelling, whatever its source; the same table gives coverage; and the state topics are those spelled `state`. |
| `Topic.AnyMatchesIffReaches` | crates/daemon/src/broadcast/event.rs:120-146 | Some subscription matches a message iff one of those topics is subscribed. |
| `Topic.CoverageIsStateDelivery` | crates/daemon/src/broadcast/event.rs:120-170 | The table that decides snapshot coverage and the one that decides delivery agree on state frames. |
| `Hub.CapacityFloorKeepsPairs` | crates/daemon/src/broadcast/hub.rs:19-35 | With the floor of two an up-to-date subscriber always gets an event and its state; with a ring of one it would lose the event. |
| `Connection.Connection.CoalesceDecision` | crates/daemon/src/api/ws.rs:806-861 | The decision, and the pending count and first id it updates. |
| `Connection.EmittedFrameIsAccepted` | crates/daemon/src/api/ws.rs:841-933 | For a real lag the decided frame always passes the frame constructor's checks. |
| `Connection.Connection.EmitDroppedOrCoalesce` | crates/daemon/src/api/ws.rs:895-956 | Sends a frame and resets the pending state, or folds the lag in. |
| `Connection.Connection.DispatchEnvelope` | crates/daemon/src/api/ws.rs:987-1021 | Sends iff one of the message's three topics is subscribed, and then exactly that envelope's frame. |
| `Connection.Connection.Receive` | crates/daemon/src/api/ws.rs:326-400 | One receive: delivery moves cursor or coverage; a lag clears coverage and is reported, or is ignored without subscriptions. |
| `Connection.Connection.DrainBacklogUnderState` | crates/daemon/src/api/ws.rs:689-763 | Receives until the ring has nothing more for this connection. |
| `Connection.SnapshotIsWantedRows` | crates/daemon/src/projection/snapshot.rs:55-158 | A snapshot is, in row order, exactly the rows not yet covered, readable, of a session the topic names, and read as a state of the filter if there is one; each as stored but for its read-time state. |
| `Connection.Connection.SnapshotForTopic` | crates/daemon/src/projection/snapshot.rs:55-158 | The row loop computes that snapshot. |
| `Connection.NoSessionIsSnapshottedTwice` | crates/daemon/src/api/ws.rs:566-629 | A snapshot asked for again, under any topic and filter, repeats no session that the first one sent. |
| `Connection.Connection.SendSnapshotFrames` | crates/daemon/src/api/ws.rs:606-629 | Sends every frame and marks each session as current. |
| `Connection.AcceptIffSpelled` | crates/daemon/src/api/ws.rs:455-528 | A subscription is acted on iff its topic is spelled right, every state token is known and in the filter at its place, and a filter comes only with a state topic; an unsubscription iff its topic is spelled right; nothing else is. |
| `Connection.UnsubscribedIff` | crates/daemon/src/api/ws.rs:658-668 | An unsubscription takes away that topic alone, and of the covered sessions exactly those no remaining topic is about. |
| `Connection.Connection.HandleTextFrame` | crates/daemon/src/api/ws.rs:443-676 | Refused requests close with a policy violation; others drain, snapshot, subscribe and send, or drain, unsubscribe and prune coverage, in that order. |
| `Coverage.RunsStayCovered` | crates/daemon/src/api/ws.rs:326-668 | In every interleaving of daemon and connection, also between commit and publication and inside a request, each covered key is tracked by a subscription, and the stream after the connection's position, the part the ring may have evicted included, leads its view to the stored state. |
| `Coverage.SkippedSessionsAreCurrent` | crates/daemon/src/api/ws.rs:530-668 | In every reachable state, for a session a snapshot would skip: if nothing unread was evicted, draining and what is in flight leave the client at the stored state or its read-time reading, and at the stored state if any state was among that; if something was, the next receive drops the session from coverage, and what the client can still end at is the stored state iff the ring holds a state of the session, else what it shows. |
| `Coverage.CaughtUpSessionsAreCurrent` | crates/daemon/src/api/ws.rs:530-668 | A connection that has read everything, with nothing in flight, shows every session it would skip as stored or as read now. |
| `Coverage.DrainDelivers` | crates/daemon/src/api/ws.rs:689-763 | With nothing evicted, draining puts exactly the frames of subscribed topics after the position on the wire, in order, and the sessions held current grow by exactly those whose state went out. |
| `Coverage.DrainedStatesAreNotRepeated` | crates/daemon/src/api/ws.rs:689-763 | The snapshot that follows leaves out a wanted row iff its session was held current before or its state went out while draining. |
| `Coverage.WantedEvents` | crates/daemon/src/api/ws.rs:689-763 | So an event is among the frames drained iff it is in the ring and one of its three topics is subscribed. |
| `Coverage.WantedStates` | crates/daemon/src/api/ws.rs:689-763 | And a state, whole, iff it is there and one of its session's three topics is subscribed. |
| `Coverage.AnswerIsARun` | crates/daemon/src/api/ws.rs:443-676 | What the connection does on a request is what a run does that takes the drain, the snapshot, the subscription and the frames with nothing in between. |
| `Coverage.EvictionClearsCoverage` | crates/daemon/src/api/ws.rs:361-400 | After an eviction the next receive moves to the oldest message held, tells the client no state and clears all coverage. |
| `Coverage.PendingStateDecides` | crates/daemon/src/projection/session.rs:595-632 | The last pending state of a session is the stored one. |
| `Coverage.LagKeepsCovered` | crates/daemon/src/api/ws.rs:361-388 | A lag that loses frames keeps the claim, because coverage is cleared. |
| `Coverage.UnsubscribeKeepsCovered` | crates/daemon/src/api/ws.rs:640-668 | Pruning on unsubscribe keeps the claim. |
| `Coverage.SnapshotKeepsCovered` | crates/daemon/src/api/ws.rs:584-613 | Reading the rows, subscribing and preparing the frames keeps the claim. |
| `Coverage.WildcardSnapshotIsComplete` | crates/daemon/src/projection/snapshot.rs:97-158 | An unfiltered snapshot of all sessions leaves out only rows already covered. |
| `Drops.LedgerFollowsConnection` | crates/daemon/src/api/ws.rs:326-400 | The bookkeeping of the next rows is about the connection's own receive step. |
| `Drops.ReportsBoundTheirLossesFromBelow` | crates/daemon/src/api/ws.rs:806-861 | In every run no lost event folded into a `Dropped` frame has an id below the frame's first id, even if the cursor moved between loss and report. |
| `Drops.LossesAreAccountedFor` | crates/daemon/src/api/ws.rs:328-400 | Every ring position passed is exactly one of sent, filtered, lost, lost unheard; every loss is in exactly one report or pending; reported plus pending never exceeds lost, and equals it iff no report and not what is pending stands for more than 64 bits can count. |
| `Drops.NoFrameStorm` | crates/daemon/src/api/ws.rs:815-841 | Any `k` successive `Dropped` frames span strictly more than `k - 1` windows. |
| `Drops.LagIsReportedIff` | crates/daemon/src/api/ws.rs:806-956 | In every run a lag under a subscription is reported at once iff no report went out within the window; a report stands for everything unreported and this lag, with their number and the id counted on from the first; what is not reported is kept. |
| `Drops.ReportsStartAfterTheLastSent` | crates/daemon/src/api/ws.rs:806-861 | In every run the first id a report names is exactly the one after the last event sent before its first lost position, or zero if none was. |
| `IngestHandler.QueuedIffAccepted` | crates/daemon/src/ingest/handler.rs:44-136 | An item is queued iff the hook is told 200, iff the line passes every check, spelled out, and there is room; a good line without room is told 503; only a caller that hung up is told nothing. |
| `IngestHandler.FirstFailureDecides` | crates/daemon/src/ingest/handler.rs:44-119 | Which refusal a line gets, check by check: the first that fails. |
| `IngestHandler.RefusalIsSaid` | crates/daemon/src/ingest/handler.rs:14-119 | A refusal is told as 400, its words, and the first 512 characters of what it echoes with line breaks blanked. |
| `IngestHandler.ReasonIsShort` | crates/daemon/src/ingest/handler.rs:14-20 | No reason sent breaks the line or makes a reply longer than 2072 bytes. |
| `IngestHandler.ReplyRoundTrip` | crates/daemon/src/ingest/handler.rs:22-136 | Every reply fits the shim's buffer and parses back to its status and reason, whatever follows it. |
| `IngestHandler.Exchange` | crates/shim/src/socket.rs:317-395 | End to end: however the reply is cut up, the shim learns exactly what became of its line, or names an error or a read timeout. |
| `IngestQueue.StepKeepsOrderly` | crates/daemon/src/ingest/writer.rs:29-61 | Every step of handlers, replay, writer, shutdown and main keeps: accepted is handed over plus queued, the queue within capacity, acknowledged items accepted, a stopped writer leaves nothing. |
| `IngestQueue.SendSucceedsIff` | crates/daemon/src/ingest/handler.rs:121-135 | A hook's or a replay's item gets in iff the writer still listens and the queue is not full; what each is told follows. |
| `IngestQueue.HooksAreTakenUntilFull` | crates/daemon/src/ingest/handler.rs:121-135 | Along every run a good hook line is told 200 iff the writer has not returned and fewer items than the configured capacity wait. |
| `IngestQueue.WritesFollowAcceptance` | crates/daemon/src/ingest/writer.rs:35-59 | In every run items reach `write_item` in the order they were accepted. |
| `IngestQueue.ShutdownLosesNothingAccepted` | crates/daemon/src/main.rs:344-394 | When the end of the recording is written, every accepted item has been through a finished `write_item`; so has every hook told 200 and every replay line counted. |
| `IngestQueue.StoppedStaysStopped` | crates/daemon/src/ingest/writer.rs:45-57 | Once the writer has returned nothing is accepted any more, and no hook is told 200. |
| `IngestQueue.AcceptedWasEnqueued` | crates/daemon/src/ingest/handler.rs:121-135 | In every run each accepted item was queued, when there was room, by the step of the hook or replay line that brought it, and a hook's was not acknowledged by that step. |
| `IngestQueue.AnsweredAfterQueued` | crates/daemon/src/ingest/handler.rs:121-135 | In every run a 200 is written at a later step than the one that queued the item it answers. |
| `IngestWriter.WriteItem` | crates/daemon/src/ingest/writer.rs:14-27 | Origin dispatch: only live items can add the ends of superseded sessions behind their own event; a replayed one adds its event alone. |
| `IngestWriter.DrainQueue` | crates/daemon/src/ingest/writer.rs:45-57 | The drain adds each item's part in queue order and nothing else; agreement of log, table and stream is kept. |
| `Export.ExportSession` | src/commands/export.rs:83-133 | Ends whatever the daemon answers; opens the output only if the first page came; a cursor that does not advance ends it with an error. |
| `Export.SelectAfter` | crates/daemon/src/db/queries.rs:88-92 | Asking again from the id of a selected event gives exactly what came after it. |
| `Export.SelectsTheSessionsEvents` | crates/daemon/src/db/queries.rs:88-92 | What is selected is, by increasing id, exactly the log's events with that session id after the cursor, but for the daemon's own. |
| `Export.SelectsTheSessionLog` | crates/daemon/src/db/queries.rs:88-92 | If one source alone uses the session id, that is the session's log. |
| `Export.PagesAreComplete` | src/commands/export.rs:104-130 | Over a fixed log and any page size the pages hold exactly those events, each once, in order, and the export ends. |
| `Export.ExportIsTheSessionLog` | crates/daemon/src/api/events.rs:70-165 | An export writes exactly the events with the session id, or fails before touching the output; the latter iff the log has none; for an id of one source it writes that session's log. |
| `Replay.ReplayBody` | crates/daemon/src/api/replay.rs:59-200 | The line loop: count, complaints by line number and queued envelopes are those of the specified fate of each line. |
| `Replay.QueuedIsReplayable` | crates/daemon/src/api/replay.rs:81-160 | Every line is skipped, complained about or queued; the count is exact; nothing queued has a sentinel or unknown kind or a notification type other than its payload's. |
| `Replay.SkippedIff` | crates/daemon/src/api/replay.rs:65-75 | A line is skipped iff it is ASCII white space up to its end or up to a `#`. |
| `Replay.ComplaintsAreRight` | crates/daemon/src/api/replay.rs:77-185 | Complaints and lines with something wrong correspond one to one, each with what is wrong; the others not skipped are counted as replayed. |
| `Replay.ExportedLinesAreAccepted` | crates/daemon/src/api/replay.rs:81-120 | An exported file with room in the queue is accepted whole iff no kind is unknown, and the complaints are exactly those lines. |
| `Replay.ExportReplayRoundTrip` | crates/daemon/src/api/replay.rs:112-185 | Export, then replay into an empty store: the events of known kinds one for one but for ids and times, none added; accepted whole iff no kind is unknown, and then the same rows but for their times, and no other row. |
| `Replay.FoldIgnoresStamps` | crates/daemon/src/projection/state.rs:49-171 | The fold depends on nothing of an event's id, and on its time only for the times it stores. |
| `Utf8.DecodeInvertsEncode` | crates/shim/src/socket.rs:278-282 | Decoding gives back every encoded text. |
| `Utf8.EncodeInvertsDecode` | crates/shim/src/socket.rs:278-282 | Only encodings decode: over-long, cut and surrogate sequences are refused. |
| `ShimSocket.WriteBounded` | crates/shim/src/socket.rs:170-201 | On success exactly the buffer was delivered; on failure a proper prefix, because the deadline had passed or the last call took nothing, timed out or failed; interruptions only lead to the next call. |
| `ShimSocket.CallsAreBounded` | crates/shim/src/socket.rs:174-184 | No call starts at or past the deadline or is offered more than 8192 bytes, or none. |
| `ShimSocket.ShortPayloadIsOneCall` | crates/shim/src/socket.rs:163-165 | A payload within one chunk that the socket takes whole costs one call. |
| `ShimSocket.ReadBounded` | crates/shim/src/socket.rs:221-264 | Each read hands over what the stream has ready, within the room left; the first that brings a newline is the last; without one the result is all of a stream shorter than the buffer; a failure names the deadline, the full buffer, or what the last read ran into. |
| `ShimSocket.ReceiveReply` | crates/shim/src/socket.rs:221-311 | Without errors and timeouts the outcome depends on the stream alone, not on how reads split it. |
| `ShimSocket.OnlyTheFirstLineMatters` | crates/shim/src/socket.rs:273-282 | Bytes after the first newline never matter. |
| `ShimSocket.CarriageReturnsDoNotMatter` | crates/shim/src/socket.rs:283-283 | Nor do carriage returns before it. |
| `Calendar.YearOfEraBrackets` | crates/shim/src/log.rs:59-59 | The closed formula for the year of a 400-year era finds the year whose days bracket the given day. |
| `Calendar.CivilDateIsRight` | crates/shim/src/log.rs:55-67 | For every day from -719468 to the last day of the largest 32-bit year the result is a Gregorian date whose day number, counted year by year and month by month, is the input. |
| `Calendar.CivilFollowsCalendar` | crates/shim/src/log.rs:55-67 | The next day is the next calendar date, and later days have later dates. |
| `Calendar.CivilInvertsDayNumber` | crates/shim/src/log.rs:55-67 | Every date in the range is the result for its own day number. |
| `Calendar.CivilDateIsRightIff` | crates/shim/src/log.rs:55-67 | For every day from -719468 on, the result is the date with that day number iff the day is not past the last one of the largest 32-bit year. |
| `Calendar.LastDayIsLast` | crates/shim/src/log.rs:65-65 | That day is the 31st of December, and the day after it wraps to a negative year. |
| `Calendar.TimestampRecombines` | crates/shim/src/log.rs:41-51 | The printed fields are in range and together give back the seconds. |
| `Plist.XmlEscape` | src/commands/launch_agent.rs:286-299 | The loop writes each of the five characters as its entity and every other as itself. |
| `Plist.UnescapeInvertsEscape` | src/commands/launch_agent.rs:857-863 | The five replacements in sequence undo the escaping of every text. |
| `Plist.UnescapeFromOrder` | src/commands/launch_agent.rs:857-863 | So does every order that takes each character once and the ampersand last. |
| `Plist.AmpersandMustComeLast` | src/commands/launch_agent.rs:857-863 | A text that comes back wrong when the ampersand is taken first. |
| `Plist.RenderLaunchAgentPlist` | src/commands/launch_agent.rs:223-284 | The document printed, environment loop included, is the specified one. |
| `Plist.ParsePlistEnvironment` | src/commands/launch_agent.rs:791-828 | The scanner's loop computes the specified pairs, for any text. |
| `Plist.EnvironmentRoundTrip` | src/commands/launch_agent.rs:791-828 | For all labels, paths and variables, empty ones included, scanning the printed document gives the variables back in order. |
| `Plist.ProgramRoundTrip` | src/commands/launch_agent.rs:839-852 | For all of them scanning gives the daemon's path back. |
| `Plist.LabelReadsBack` | src/commands/launch_agent.rs:255-282 | The label reads back by its key, whatever it is. |
| `Plist.LogPathsReadBack` | src/commands/launch_agent.rs:229-282 | So do the two log paths, unless a variable has their key's name. |
| `Plist.LaunchSettingsReadBack` | src/commands/launch_agent.rs:251-282 | So do the settings: at load, and kept alive but after a successful exit. |
| `Plist.JoinedPathNamesTheFile` | src/commands/launch_agent.rs:229-230 | A log path names its file, under the data directory. |
| `HookCommand.FileNameIff` | crates/adapter-claude/src/install.rs:590-590 | A path's file name is its last name, up to slashes and single dots after it. |
| `HookCommand.CommandIff` | crates/adapter-claude/src/install.rs:580-591 | A command is the shim's iff its first word is a path whose last name is the shim's. |
| `HookCommand.OurCommandNamesItsKind` | crates/adapter-claude/src/install.rs:498-505 | The installed command's words are the shim, the flag, and the hook kind itself. |
| `Install.OurGroupIsBowerbirdOnly` | crates/adapter-claude/src/install.rs:490-509 | What the installer writes is recognised as wholly the installer's. |
| `Install.InstalledGroupRunsShim` | crates/adapter-claude/src/install.rs:404-509 | What an install appends under a kind is one hook of type `command` that runs the shim for that very kind. |
| `Install.InstalledKindsAreTheHooks` | crates/adapter-claude/src/install.rs:23-29 | The kinds installed are the names of exactly the event kinds hooks report. |
| `Install.StripArray` | crates/adapter-claude/src/install.rs:463-485 | Drops wholly bowerbird groups, strips mixed ones in place, and reports iff the array changed. |
| `Install.StripGroupsShape` | crates/adapter-claude/src/install.rs:463-485 | Stripping leaves no bowerbird hook and changes an array iff it held one. |
| `Install.UserGroupsKeepTheirPlace` | crates/adapter-claude/src/install.rs:463-485 | Groups without a bowerbird hook keep values and order wherever they stand. |
| `Install.UserHooksKeepTheirPlace` | crates/adapter-claude/src/install.rs:470-483 | Inside a group the user's hooks keep values and order wherever they stand. |
| `Install.MixedGroupsKeepTheUsersHooks` | crates/adapter-claude/src/install.rs:463-485 | A group that mixes them with ours stays in its place, keeps its other fields, and keeps the user's hooks in theirs. |
| `Install.Settings.MergeInstall` | crates/adapter-claude/src/install.rs:404-442 | The settings afterwards and the kinds reported, for every object. |
| `Install.Settings.StripInstall` | crates/adapter-claude/src/install.rs:448-488 | The settings afterwards and the kinds reported, for every value. |
| `Install.MergeIsIdempotent` | crates/adapter-claude/src/install.rs:404-442 | After an install every kind has its hook; installing again changes and reports nothing. |
| `Install.StripIsIdempotent` | crates/adapter-claude/src/install.rs:448-488 | After an uninstall no bowerbird hook is left; uninstalling again changes and reports nothing. |
| `Install.StripUndoesMerge` | crates/adapter-claude/src/install.rs:404-488 | Uninstalling after installing equals uninstalling from the settings with missing or ill-typed containers made empty. |
| `Install.MergeKeepsTheUsers` | crates/adapter-claude/src/install.rs:404-442 | Other fields and kinds stay; each kind's array is what it was, with our group behind it iff the kind is reported. |
| `Install.StripKeepsTheUsers` | crates/adapter-claude/src/install.rs:448-488 | Other fields, other kinds and ill-typed arrays stay; a kind is reported iff its array changed. |
| `Install.LegacyUpgradeIffOnlyNewKindAdded` | crates/adapter-claude/src/install.rs:519-542 | The upgrade hint is due iff the prompt hook is the only kind an install adds. |

## Left out

- SQLite, connection pools, serialisation of states and rows, sockets, signals, logging: tables are maps and sequences, and a stored state is read back as it was written. Rows whose state does not parse are the rows without a state.
- Order of the session scans: the model proves everything for any order of the rows.
- Rows of the log with an unreadable kind: rebuild skips such a session and the events endpoint such a row; the log here holds typed events.
- The `recording_sessions` table behind the lifecycle markers, and the Hello frame computed from it.
- Ping, pong, authentication, connection limits, and failures of a socket send, which end the connection task.
- The spelling of the state tokens in a subscription and the text of close reasons.
- Rounding of the ring capacity to a power of two by the channel: the ring here holds exactly what was asked for, but at least two.
- DaemonRuns.PidHolderIsLastEmitter: claims nothing after a disruptive step, which the source allows: a hook without a pid that revives such a session, a replayed event on a claimed pid, or a supersession scan or write that fails after the primary commit with a session still to end, a follow-up the source calls best-effort.
- Drops.LossesAreAccountedFor: does not claim that every loss is reported, since a suppressed count is reported only with a later lag, nor that a frame's last id bounds the gap, which the source gives as an estimate.
- Calendar.CivilDateIsRightIff: claims nothing of days before -719468, where the source combines a truncation adjustment with Euclidean division; the program passes only non-negative days.
- IngestQueue.ShutdownLosesNothingAccepted: a write that fails counts as done, as in the source, which logs and goes on; a panic of the writer task is not modelled. The writer's loop is the step relation here, since handlers run at each of its awaits; `IngestWriter.DrainQueue` is its drain with nothing running beside it.
- Replay.ExportReplayRoundTrip: assumes room in the queue and no failed write; lines and white space are characters, not bytes.
- The text of error messages that quote a reply which is not UTF-8 or has no newline.
- The file side of installing (atomic replacement, retries, seeding of the reactions file), launchctl, token resolution, health and status, the scripts.
