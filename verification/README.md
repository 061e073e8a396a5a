# Verified model of the tttt terminal multiplexer

tttt runs AI agents in pseudo-terminals. Around the terminal emulation sits a set of small state machines and index
and codec functions that have to stay exact under arbitrary interleavings, short writes and arbitrary data. This
project models those parts in Dafny and proves what they are for.

The model has six parts.

* **Injection pipeline** (`Chunking`, `SessionInput`, `SessionInputRuns`, `InjectedEnter`, `InjectedEnterRuns`,
  `UndisturbedEnter`, `Pipeline`, `Scheduler`, `SchedulerRuns`). A scheduler message is decoded, cut at UTF-8
  boundaries and written with pacing through a PTY that takes any number of bytes; user bytes share the drain. With
  the last byte of a message an Enter is armed, which then runs a bounded verify-and-retry protocol guarded by
  ownership of the input, output silence and a screen check. What the protocol may do at most is proved over every
  run, and what it does do when left to itself to the tick. Events that find their session busy wait or are dropped.
  `Pipeline` joins the writer to the protocol: every move of the real writer is a step of the protocol, so the
  protocol's guarantees hold of the Enters the writer arms.
* **Web viewers** (`WebViewer`, `WebViewerRuns`). A refcounted watch set, a publisher that suppresses unchanged
  snapshots, and per-viewer delta messages: a distributed cache whose client side is the fold of all messages sent.
* **Event log and session list** (`EventLog`, `SqlOrder`, `GapSplit`, `LogCoverage`, `ListView`). Tables are sequences
  of rows and SQL has its relational meaning. The list of sessions and orphan chunks partitions the log, and what the
  list shows is what Enter opens.
* **Replay** (`Replay`). The screen is modelled by the calls the terminal parser has received since it was created.
  Two screens are alike when no emulator, any state with three operations, tells them apart.
* **Matching, diffing and codecs** (`Glob`, `Notification`, `ScreenDiff`, `Paste`, `Base64`, over `Utf8`).
* **Pane grid** (`PaneGrid`). Layout and hit-testing over a solver that is only known to tile.

Operations that change state in the program are methods of classes here. Each is proved equal to a function from the
old state to the new one; the theorems about whole runs are lemmas about those functions. `Collections` holds
counting, filtering and stable sorting; `Naturals` holds saturating arithmetic, `Wrappers` holds `Option` and
`Result`.

## How the environment is modelled

* **Clocks.** Instants are nanoseconds. Each clock reading of the program is a parameter of its own. A stamp taken
  after an input is later than every stamp before it, as the program's ownership check presumes. An idle time is the
  difference to a given `now`, floored at zero.
* **The PTY.** `try_send_raw` takes any number of bytes up to those offered, or fails; progress moves the input clock.
  `send_keys` writes in pieces and may fail after any of them; it moves the clock whenever the session runs.
* **The screen check** of the retry protocol, regular expressions, key decoding and the float scoring of grid
  candidates are arbitrary (`Env.matches`, `Regex`, `Message.data`, `Better`). JSON arrives parsed.
* **Content hashes** are injective and never zero, and terminals are never of size (0, 0).
* **Model-only fields.** `serial` numbers pending Enters so that theorems can name them; `trace`, `armed`, `sentUser`,
  `sentScheduler`, `closed`, `attempts`, `delivered`, `refused`, `dropped` and `discarded` record what happened. No
  branch reads them.

## Where the code decides

* User priority is a property of `drain` alone: `send_scheduler` drains its own queue at once. `SendOvertakesIff` says
  exactly when a message then goes out ahead of waiting user bytes; `SendMayOvertakeUserBytes` is a run that gets
  there.
* Pacing holds between the writes of one message. `PacingIsPerMessage` gives the exact instant from which a message is
  attempted: one gap after its last attempt, or its own arrival, whatever was written just before
  (`NextMessageNeedsNoGap`).
* A failed write, or a session that is gone, throws both queues away. `Conserved` accounts for every byte: written,
  queued or thrown away, in order.
* With chunking off, `send_keys` may fail part-way through a message that its caller then forgets. `DeliveryIsExact`
  says exactly when an event is accepted, `RefusedEventIsLost` what is left of one that is not; with chunking on there
  are none.
* The deferred pass reads the clock for each event. A session gets a second event in one pass only by a reading more
  than two seconds after a write that made progress.
* A backward seek resets the parser with the current dimensions, not the initial ones. The lemmas on rewinding say
  exactly when every emulator still shows the original screen; `OpeningResizeHidesBase` is the case in which one that
  forgets the size of a blank screen does so at any dimensions.
* Within a paste a second ESC falls back into the paste, so a payload that stops inside what could be an end marker
  keeps the paste open; `EndMarkerClosesIffOpen` gives the exact condition. The start of a paste is recognised at
  `ESC [ 2 0 0`, one byte before its `~`.
* Chunks of old events split at gaps of more than one hour, although a comment on `list_orphan_session_chunks` speaks
  of five minutes.
* A session registered without a pid also lists the events of every process that ran under its id; those with a pid
  are listed a second time as an orphan. `ListPartitionsLog` gives the exact count in every case. A database whose
  sessions table lacks the pid column that its events have makes the orphan query fail: then there is no list.
* A viewer that repicks its session on the snapshot the channel starts with forgets which list it had sent without
  sending another; `DefaultSnapshotListExact` says exactly when its list is then out of step.
* The mirror agrees with the snapshot when messages arrive in the order they were made. The code makes them under the
  viewer's lock and sends them after releasing it. `SwapIsHarmlessIff` says exactly which batches may swap on the way,
  and `ConsecutiveBatchesSwapIff` that of two made in a row only those with no kind of message in common may.
* The push task of a viewer runs only when a newer snapshot was published, and only a switch is followed by a flush. A
  viewer moved by a kill request, refused or not, from a session that others watch to another such session therefore
  keeps the old screen until something else changes (`RefusedKillLeavesViewerStale`); so does one that flushes a
  snapshot borrowed before the push task processed a newer one. `TwoRoundsConverge`, `OwnStepWakesIff` and
  `KillHandledConvergesIff` say exactly when a viewer catches up.
* The base64 decoder accepts unpadded, oddly padded and truncated text; `ReencodesIffCanonical` says which texts it
  inverts the encoder on.

## Model

| member | source | states |
|---|---|---|
| Utf8.BoundaryIsScalarEdge | src/pending_input.rs:38-57 | In valid UTF-8 a byte index is a character boundary exactly when it ends a prefix of whole characters |
| Utf8.DecodeEncodeScalar | src/pending_input.rs:38-57 | The payload bits of an encoded character give the character back (section 3 of RFC 3629) |
| Utf8.LeadByteTellsLength | src/pending_input.rs:38-57 | The first byte tells how many bytes a character has, and it has no more than it needs (section 3 of RFC 3629) |
| Utf8.EncodeScalarPrefixFree | crates/tttt-mcp/src/notification.rs:172-179 | No character's encoding is a prefix of another's |
| Chunking.ChunkLen | src/pending_input.rs:42-57 | The loop over a mutable index computes the specified chunk end for arbitrary bytes and limits |
| Chunking.ChunkProgresses | src/pending_input.rs:42-57 | For arbitrary bytes a chunk is never empty, never too long and stops at a character boundary |
| Chunking.ChunkIsLongest | src/pending_input.rs:42-57 | No later boundary lies within the limit, and a chunk beyond the limit stops at the first boundary there is; without a limit it is everything |
| Chunking.ChunkWithinLimit | src/pending_input.rs:42-57 | On valid UTF-8 a chunk is within the limit or is one whole character |
| Chunking.ChunkSize | src/pending_input.rs:42-57 | From any character boundary of valid UTF-8 the next chunk carries at most max(limit, 4) bytes |
| Chunking.NextCut | src/pending_input.rs:42-57 | The cuts of a message are fixed: moving on within it moves the next cut exactly when that is reached, by one chunk |
| Chunking.PiecesJoin | src/pending_input.rs:42-57 | The chunks of arbitrary bytes concatenate to those bytes |
| Chunking.PiecesAreWholeCharacters | src/pending_input.rs:42-57 | On valid UTF-8 every chunk is a whole number of characters, within the limit or a single one |
| SessionInput.PtySession.TrySendRaw | crates/tttt-pty/src/session.rs:187-196 | Fails exactly when exited or refused; otherwise takes a prefix and moves the input clock exactly on progress |
| SessionInput.PtySession.SendKeys | crates/tttt-pty/src/session.rs:168-175 | The input clock moves on a running session even when the write then fails, all bytes or those before the failure being out |
| SessionInput.PendingInput.SendScheduler | src/pending_input.rs:84-120 | Queues or sends a message and makes the first attempt; the Enters armed are exactly those added to the shared list |
| SessionInput.PendingInput.Drain | src/pending_input.rs:122-134 | User bytes first, one attempt; the scheduler's queue only when no user byte waits |
| SessionInput.PendingInput.DrainScheduler | src/pending_input.rs:136-164 | At most one paced attempt on the front message; its Enter is armed when its last byte is out |
| SessionInput.PendingInput.PollTimeoutMs | src/pending_input.rs:166-181 | The least whole number of milliseconds that reaches the next deadline, capped at the normal timeout |
| SessionInput.WriteKeepsWellFormed | src/pending_input.rs:142-162 | After any write a message in progress still has bytes to offer, in a chunk that ends at a character boundary |
| SessionInput.SendAcceptsIffNotRefused | src/pending_input.rs:103-119 | A message handed over is queued or has its Enter armed, once, if and only if chunking is on or the session takes the write; a refused one leaves the input clock and the bytes before the failure |
| SessionInput.SendHandsOver | src/pending_input.rs:84-120 | Handing over a message adds that very message, text and bytes, behind the queue or, with chunking off, past it, and none other |
| SessionInput.SendMovesClockIff | src/pending_input.rs:103-119 | The input clock moves exactly when bytes of the front message go out or, with chunking off, whenever the session runs |
| SessionInputRuns.StepKeepsInv | src/pending_input.rs:84-164 | Typing, sending, draining, losing the queue and outside input keep bytes, order, arming and deadlines consistent |
| SessionInputRuns.BytesAreConserved | src/app.rs:1990-2022 | In every run scheduler bytes written are, message by message, the written parts of those that left the queue and of the front one; written, queued and thrown away add up to handed over, and written then queued is handed over exactly when nothing was thrown away; user bytes are those typed but for whole stretches thrown away |
| SessionInputRuns.TurnThrowsIff | src/app.rs:1990-2022 | A turn throws both queues away if and only if the session does not take writes and user bytes wait or the front message is due |
| SessionInputRuns.EveryRunIsOnCuts | src/pending_input.rs:142-162 | In every state of a run, whatever was taken of each chunk, every queued message is being cut where cutting its whole text cuts it |
| SessionInputRuns.TurnWritesExactly | src/pending_input.rs:122-164 | What a turn writes, to the byte: of waiting user bytes the first ones taken; else, if the front message is due, what is taken of its bytes up to the next cut; else nothing |
| SessionInputRuns.EntersFollowFinalBytes | src/pending_input.rs:151-154 | In every state of a run exactly one Enter is armed per finished message, in order, and the front message has not all its bytes out |
| SessionInputRuns.ArmedIsFresh | src/pending_input.rs:151-154 | The Enter armed owns the input stamp of the write that finished its message and is due 100 ms after the clock read then |
| SessionInputRuns.UserBytesGoFirst | src/pending_input.rs:128-132 | Over any run without new messages in which user bytes wait throughout, no scheduler byte is written, no attempt made and no Enter armed |
| SessionInputRuns.SendOvertakesIff | src/pending_input.rs:84-120 | For all states with user bytes waiting: scheduler bytes go out ahead of them if and only if the session takes some byte of the message or, with chunking on, of the front message, which is due |
| SessionInputRuns.SendMayOvertakeUserBytes | src/pending_input.rs:119-119 | A run that leaves a session idle for two seconds with user bytes waiting, where a newly fired message is written ahead of them |
| SessionInputRuns.PacingIsPerMessage | src/pending_input.rs:142-162 | In every state of a run a drain attempts the front message if and only if the session takes writes and one gap has passed since its last attempt or, if it had none, it has arrived |
| SessionInputRuns.NextMessageNeedsNoGap | src/pending_input.rs:151-162 | A message that waited behind another is attempted at the very reading that finishes the other |
| SessionInputRuns.OneTickMayServeTwoMessages | src/pending_input.rs:151-162 | A run that attempts the last byte of one message and the first of the next at one reading |
| SessionInputRuns.AttemptsAreSmall | src/pending_input.rs:109-118 | With valid UTF-8 messages no attempt of any run offers more than max(limit, 4) bytes |
| SessionInputRuns.ThroughputIsBounded | src/pending_input.rs:151-162 | In every run, over every window of attempts on one message, bytes written times the gap is at most max(limit, 4) times the window plus one gap |
| InjectedEnter.DelayedEnters.SendEnter | crates/tttt-pty/src/session.rs:168-175 | Pressing Enter stamps the input clock of a running session and leaves an exited one alone |
| InjectedEnter.DelayedEnters.FirstEnter | src/injected_enter.rs:209-229 | A due entry presses Enter once, whoever owns the input, and stays only if it owned it before |
| InjectedEnter.DelayedEnters.RetryEnter | src/injected_enter.rs:230-280 | Exit, lost input, no match or the last check ends the entry; output since the last check defers it; else Enter is pressed again |
| InjectedEnter.DelayedEnters.DrainDelayedEnters | src/injected_enter.rs:187-281 | The pass over the list is the composition of the visits, each seeing what earlier ones did |
| InjectedEnter.StripsOneEnter | src/injected_enter.rs:28-38 | One leading `[ENTER]`, and only one, is taken off the text looked for |
| InjectedEnterRuns.StepKeepsInv | src/injected_enter.rs:187-281 | Every step keeps entries distinct in input stamp and their counters in line with what has been observed |
| InjectedEnterRuns.EveryInjectionIsBounded | src/injected_enter.rs:9-13 | In every run an injection sends at most four Enters, 100 ms, 1 s, 2 s and 4 s apart in tick time, has at most five due visits, one terminal record once it has ended and as many retry records as retries |
| InjectedEnterRuns.AtMostOneLivePerSession | src/injected_enter.rs:26-38 | In every run at most one pending Enter per session still owns the session's input |
| InjectedEnterRuns.StaleNeverRetries | src/injected_enter.rs:234-237 | An entry that has lost its input never presses Enter as a retry, whatever follows |
| InjectedEnterRuns.OtherInputStopsRetries | src/injected_enter.rs:234-237 | User input or another injection silences every entry already queued for the session |
| InjectedEnterRuns.AnothersEnterStopsRetries | src/injected_enter.rs:194-281 | So does another entry's Enter, for the rest of the same pass and ever after, on either side of the list |
| InjectedEnterRuns.RetriesExactlyWhenUntouched | src/injected_enter.rs:230-280 | Told from what has been observed: a retry is attempted if and only if 100 ms, 1 s, 2 s or 4 s have passed since the injection or the last due visit, the session runs, input is owned and none waits, the text is on screen, fewer than four due visits came before, and there was no output since the last of them |
| InjectedEnterRuns.VisitGivesUpIff | src/injected_enter.rs:194-281 | Exactly when a visit ends an entry, and the one reason it records |
| InjectedEnterRuns.PassSparesWaiting | src/injected_enter.rs:234-237 | An entry whose session has input waiting presses no retry in the pass, whatever earlier entries do |
| UndisturbedEnter.UndisturbedInjectionRunsItsCourse | src/injected_enter.rs:187-281 | After any history, an injection into a running session without another pending Enter, which gets no other input, output, exit or removal, and whose checks match and writes succeed, presses Enter at exactly the first ticks 100 ms, 1 s, 2 s and 4 s on, logs each retry, and ends at its final check 1 s later; whatever other sessions do |
| UndisturbedEnter.FiveTicksSuffice | src/injected_enter.rs:9-13 | Five ticks far enough apart see it through: four Enters and the end |
| Pipeline.FeedIsProtocolStep | src/pending_input.rs:84-164 | Whatever the writer does to a session, failures included, is nothing, other input, or one injection of the protocol |
| Pipeline.WriterRefinesProtocol | src/pending_input.rs:84-164 | Every run of writers, protocol ticks and environment leads to a world that a run of the protocol leads to |
| Pipeline.ArmedEntersAreSafe | src/injected_enter.rs:26-38 | So at most one Enter armed by the writer owns its session's input, and the bounds hold of all of them |
| Pipeline.NoRetryWhileInputWaits | src/app.rs:3085-3093 | In every run, while bytes wait in a session's queues, a tick presses no retry there |
| Scheduler.App.HandleSchedulerEvent | src/app.rs:2961-3024 | The handler moves the desk as `FiredEventGoesByIdleness` says |
| Scheduler.App.DrainPendingInput | src/app.rs:1990-2022 | Each session's queues get one attempt, independent of iteration order; a failed one and one without session are emptied, with one log record each and no other |
| Scheduler.FailsIff | src/app.rs:1990-2022 | A queue fails if and only if something in it is due and its session does not take writes, or the session is gone |
| Scheduler.App.DrainDeferredSchedulerEvents | src/app.rs:3027-3082 | The loop over the deferred events is the composition of single retries, each seeing the writes before it and its own clock readings |
| Scheduler.SendKeepsWellFormed | src/pending_input.rs:84-120 | A delivery keeps the queues well formed, and either leaves the input clock or moves it past the tick |
| SchedulerRuns.RetryIsLocal | src/app.rs:3064-3079 | Retrying an event touches only its target, delivers exactly when that was idle, and moves its input clock past the write's reading or not at all |
| SchedulerRuns.FiredEventGoesByIdleness | src/app.rs:2961-3024 | A fired event is handed to its session, which accepts it unless chunking is off and the write fails, if and only if the last input there is two seconds old; otherwise nothing moves and it waits if it is a reminder or a Wait cron and is dropped if it is a Drop cron; no other session moves |
| SchedulerRuns.DeferredEventGoesByIdleness | src/app.rs:3027-3082 | So does every event of a deferred pass, on the desk as the one before left it; a busy target keeps it deferred |
| SchedulerRuns.DeliveryIsExact | src/pending_input.rs:103-119 | A delivered event is queued or sent, once, if and only if chunking is on or the session takes the write; its input clock moves exactly when bytes go out or, with chunking off, when the session runs |
| SchedulerRuns.EventsAreAccountedFor | src/app.rs:2961-3082 | Across any run the events accepted, refused, dropped, discarded and deferred add up to those fired, each event counted once |
| SchedulerRuns.PassedDiscards | src/app.rs:3027-3082 | A deferred pass drops nothing and discards only events whose target is missing |
| SchedulerRuns.WaitingEventsAreNeverLost | src/app.rs:2961-3082 | While its target lives, a reminder or Wait-policy cron is accepted or still deferred each time it fired, but for the times `send_keys` refused it |
| SchedulerRuns.ChunkingRefusesNothing | src/pending_input.rs:103-119 | With chunking on no run refuses an event, so none of these is lost |
| SchedulerRuns.RefusedEventIsLost | src/pending_input.rs:103-107 | With chunking off every event whose running, idle target fails the write is gone: nothing queued, armed or deferred, the session stamped, the bytes before the failure out |
| SchedulerRuns.InputClockOnlyAdvances | src/app.rs:3033-3079 | A pass never turns a session's input clock back |
| SchedulerRuns.BusyStaysBusy | src/app.rs:3033-3079 | After any point of a pass a session gets an event only by a reading two seconds after the input it had there |
| SchedulerRuns.PassDeliversInOrder | src/app.rs:3033-3079 | In one pass no event passes an earlier one of its session that was kept but by a later reading, nor follows a delivery that moved the input clock but by a reading more than two seconds on |
| WebViewer.WatchedSessions.RetargetWatch | src/web/mod.rs:136-152 | One count moves from the old session to the new one and entries at zero disappear |
| WebViewer.WebViewer.ViewerUpdates | src/web/mod.rs:664-723 | Messages, cache fields and watch set after catching up with a snapshot |
| WebViewer.BuildSnapshot | src/web/mod.rs:582-635 | The loop renders exactly the watched sessions that resolve |
| WebViewer.SnapshotShowsManager | src/web/mod.rs:582-635 | Field by field: the sessions listed in order, the default pick, and the whole screens of exactly those watched ids that stand for a session, by id first and else by name |
| WebViewer.DefaultPrefersRoot | src/web/mod.rs:582-635 | The default is the first root session, else the first session, else none |
| WebViewer.BuiltIsValid | src/web/mod.rs:582-635 | A built snapshot carries the hashes of its contents and is never the default one |
| WebViewer.ChangedIffDifferent | src/web/mod.rs:638-650 | Change suppression is exact: false only on equal snapshots, by equal sizes and agreement on keys |
| WebViewer.Publisher.Tick | src/web/mod.rs:561-579 | After every tick, published or suppressed, viewers hold the snapshot just built |
| WebViewerRuns.UpdatesSyncMirror | src/web/mod.rs:664-723 | Processing a snapshot makes the client's list equal to its own and the rendered active session's dims, cursor and content too |
| WebViewerRuns.DefaultSnapshotListExact | src/web/mod.rs:664-723 | On the unpublished channel the client's list is right if and only if it is empty already, or the viewer has no session and the list last sent is not forgotten |
| WebViewerRuns.DefaultSnapshotCanLeaveList | src/web/mod.rs:664-723 | Every list sent before is left standing by a viewer on a session that flushes the default snapshot |
| WebViewerRuns.UpdatesAreIdempotent | src/web/mod.rs:664-723 | A second call on the same snapshot sends nothing and changes nothing |
| WebViewerRuns.MoveKeepsExact | src/web/mod.rs:136-152 | Moving one viewer's focus keeps the watch map equal to the count of viewers per session |
| WebViewerRuns.RefcountsAreExact | src/web/mod.rs:438-517 | Over every interleaving of connect, push, switch, create, kill and disconnect the watch map counts connected viewers exactly, without zero entries |
| WebViewerRuns.PushSyncsClient | src/web/mod.rs:464-485 | Over every interleaving, whichever snapshots were missed, processing a published one, by the push task or a flush, makes the client agree with it |
| WebViewerRuns.FocusMovesAsAsked | src/web/mod.rs:740-850 | A viewer moves exactly by its own switch to a session that exists, a session created for it, a kill request for the session it is on, or a snapshot that no longer lists that session; of these the switch alone is followed by a flush |
| WebViewerRuns.SwitchShowsAtOnce | src/web/mod.rs:756-767 | A switch shows the new session at once if the newest snapshot has it |
| WebViewerRuns.MovedViewerIsSentEverything | src/web/mod.rs:740-850 | A viewer just moved is sent dimensions and contents by the first snapshot that renders its session, even if they are what it saw before |
| WebViewerRuns.FirstOtherIsFirst | src/web/mod.rs:824-834 | A killer is moved to the first listed session with another id |
| WebViewerRuns.PublishIsCurrent | src/web/mod.rs:561-579 | After a tick the newest published snapshot is the one just built |
| WebViewerRuns.TwoRoundsConverge | src/web/mod.rs:464-485 | From any reachable state two ticks, the push task running after each, leave the client on a live session, showing the list and its screen, if and only if it had something unseen, the first tick publishes, or it did already |
| WebViewerRuns.WokenIsUpToLatest | src/web/mod.rs:464-485 | A push task with anything left to do, a borrowed snapshot or a newer one, ends level with the newest |
| WebViewerRuns.UpToLatestIsOwedNothing | src/web/mod.rs:664-723 | A viewer not moved since it processed the newest snapshot is owed nothing |
| WebViewerRuns.OwnStepWakesIff | src/web/mod.rs:740-850 | A switch, flush, creation or kill handled for a level viewer wakes its push task if and only if the rendered sessions change with the watch set; otherwise rounds change nothing |
| WebViewerRuns.NewlyWatchedWakes | src/web/mod.rs:561-579 | A viewer on a live session that nobody has rendered yet is woken by the next tick |
| WebViewerRuns.KillHandledConvergesIff | src/web/mod.rs:804-846 | A viewer moved by a kill request shows its new session two ticks later if and only if the rendered sessions changed or it showed the same before |
| WebViewerRuns.RefusedKillLeavesViewerStale | src/web/mod.rs:804-846 | A run after which a viewer shows a screen that is not its session's, and no round changes it |
| WebViewerRuns.SwapIsHarmlessIff | src/web/mod.rs:464-485 | For any client and any two batches, delivering them the other way round ends alike if and only if no kind of message is in both with different contents |
| WebViewerRuns.UpdatesCarry | src/web/mod.rs:664-723 | What a batch carries, told from the snapshot and the viewer's fields before the call |
| WebViewerRuns.ConsecutiveBatchesSwapIff | src/web/mod.rs:487-543 | Two batches made in a row without a change of session may swap if and only if they have no kind of message in common |
| WebViewerRuns.SwappedBatchesDiverge | src/web/mod.rs:487-543 | The least pair that may not: the client keeps the older screen and nothing more is sent |
| GapSplit.SplitAtGaps | crates/tttt-log/src/sqlite.rs:421-438 | The loop computes the closed ranges of the blocks |
| GapSplit.BlocksSplit | crates/tttt-log/src/sqlite.rs:421-438 | The blocks concatenate to the timestamps, have no gap inside and one between neighbours |
| GapSplit.GapSplitIsUnique | crates/tttt-log/src/sqlite.rs:421-438 | No other partition has that property |
| GapSplit.RangesAreSeparated | crates/tttt-log/src/sqlite.rs:421-438 | On sorted timestamps the chunks are ordered and more than the threshold apart |
| GapSplit.ChunksAreAnHourApart | crates/tttt-log/src/sqlite.rs:381-438 | In milliseconds: inside a chunk no two neighbours are more than an hour apart, between chunks they are |
| GapSplit.ExactlyOneRange | crates/tttt-log/src/sqlite.rs:421-438 | Every timestamp lies in the closed range of exactly one chunk |
| EventLog.SqliteLogger.LogEvent | crates/tttt-log/src/sqlite.rs:599-625 | Appends one row with the logger's pid, or refuses a timestamp beyond the signed 64-bit range and changes nothing |
| EventLog.SqliteLogger.LogSessionStart | crates/tttt-log/src/sqlite.rs:208-227 | Replaces the row of the same id and keeps ids unique, or refuses likewise |
| EventLog.ListOrphanSessionChunks | crates/tttt-log/src/sqlite.rs:458-472 | Fails exactly when the query names a missing column; otherwise lists the unclaimed groups by id and pid, those without pid in chunks |
| EventLog.BuildSessionList | src/replay_tui.rs:60-82 | Registered sessions and orphans with their counts, newest first, or the query's error |
| SqlOrder.OrderedInOrder | crates/tttt-log/src/sqlite.rs:289-327 | The orphan groups stand in order of id by code point, then NULL before every pid, then pid |
| SqlOrder.OrderIsByFirstDifference | crates/tttt-log/src/sqlite.rs:289-327 | Ids compare where they first differ, a prefix first; of one id the group without pid comes first and the others by pid |
| SqlOrder.OrderedPermutes | crates/tttt-log/src/sqlite.rs:289-327 | Ordering them neither loses nor repeats a group |
| LogCoverage.RegisteredShow | crates/tttt-log/src/sqlite.rs:142-166 | A row is shown once by the registered entries if one has its id and its pid or none, else never |
| LogCoverage.GroupsAreExact | crates/tttt-log/src/sqlite.rs:289-327 | Every event's group is listed, and once |
| LogCoverage.UnclaimedShow | crates/tttt-log/src/sqlite.rs:289-327 | A row is shown once by the orphan entries exactly when no session claims its group |
| LogCoverage.OrphanEntriesSpanTheirRows | crates/tttt-log/src/sqlite.rs:332-378 | Every orphan entry runs from the first to the last of the events that opening it loads, with the placeholder command and dimensions |
| LogCoverage.ListPartitionsLog | src/replay_tui.rs:60-82 | There is a list unless the orphan query names a missing column; then every event is shown by exactly one entry, or by exactly two when its session is registered without a pid and the event has one |
| LogCoverage.SomeEventIsDoubled | src/replay_tui.rs:60-82 | Every event with a pid is shown twice where its session's row has none |
| LogCoverage.SomeDatabaseHasNoList | crates/tttt-log/src/sqlite.rs:289-302 | A database whose sessions table lacks the pid column has no list, whatever its events |
| LogCoverage.RegisteredPidsPartition | src/replay_tui.rs:60-82 | When every registered session carries a pid the list is a partition of the log, and there is no list only when there is no registered session |
| LogCoverage.ListIsNewestFirst | src/replay_tui.rs:60-82 | An entry further down the list started no later |
| LogCoverage.TiesStandInOrder | src/replay_tui.rs:60-82 | Entries that start at the same millisecond stand in a fixed order: registered sessions, then orphan groups by id and pid |
| LogCoverage.EntryShowsWhatItCounts | src/replay_tui.rs:314-325 | The count beside an entry is the number of events opening it loads, and they are in time order |
| LogCoverage.OpenedLogsSeekExactly | src/replay_tui.rs:314-338 | Every opened entry hands its rows to the replay with their times and payloads, and there seeking to a time ends after exactly the events up to it |
| LogCoverage.ChunksConcatenateToLog | crates/tttt-log/src/sqlite.rs:477-507 | The range queries over a session's chunks concatenate to its rows without pid, in order |
| ListView.ComputeSeparatorPositions | src/replay_tui.rs:138-152 | The loop finds the entries preceded by a gap |
| ListView.RenderRows | src/replay_tui.rs:461-510 | The row-building loop, consuming positions through a peeked iterator, draws the specified rows |
| ListView.RowsMatchIndices | src/replay_tui.rs:157-173 | The row at each visual index is a separator exactly at the separator indices and otherwise the session the index arithmetic names |
| ListView.SessionRowsAreBijective | src/replay_tui.rs:167-173 | Visual indices of session rows and sessions are in strictly increasing bijection |
| ListView.SeparatorsMarkLongPauses | src/replay_tui.rs:138-152 | In milliseconds: a separator is drawn between two neighbours exactly when the newer started more than an hour after the older ended or, if it has not, started |
| ListView.SessionListState.constructor | src/replay_tui.rs:182-190 | Starts on the first session's row, or nowhere in an empty list |
| ListView.SessionListState.MoveDown | src/replay_tui.rs:206-216 | Skips separators downwards and stays put at the end |
| ListView.SessionListState.MoveUp | src/replay_tui.rs:219-231 | Skips separators upwards and stays put at the start |
| ListView.SessionListState.SelectedSessionIdx | src/replay_tui.rs:199-203 | Whatever sessions the separators belong to, the session Enter opens is the one drawn on the selected row, and none on a separator |
| ListView.DownReachesNext | src/replay_tui.rs:206-216 | From a session's row, down reaches exactly the next session's row |
| ListView.UpReachesPrevious | src/replay_tui.rs:219-231 | From a session's row, up reaches exactly the previous session's row |
| ListView.MovesUndoEachOther | src/replay_tui.rs:206-231 | Each move undoes the other exactly when it moved |
| ListView.SelectionFollowsKeys | src/replay_tui.rs:175-232 | Whatever keys are pressed, the selected row is that of the session they lead to counting sessions alone; no separator is ever selected |
| Replay.SessionReplay.StepForward | crates/tttt-log/src/replay.rs:26-56 | One event is applied; a meta event resizes when its document says so, each dimension it does not give as an unsigned number kept, truncated to 16 bits |
| Replay.SessionReplay.SeekToIndex | crates/tttt-log/src/replay.rs:60-69 | Rewinds when the target is behind, then plays up to min(i, n) |
| Replay.SessionReplay.SeekToTimestamp | crates/tttt-log/src/replay.rs:72-85 | Rewinds when the last event is later than the time, then plays while events are not |
| Replay.SeekTimestampEndsAtCount | crates/tttt-log/src/replay.rs:72-85 | On a sorted log, from any position, the seek ends at the number of events no later than the time |
| Replay.EveryRunIsFaithful | crates/tttt-log/src/replay.rs:60-85 | After any history the screen is the fold of the current prefix over a blank screen at the dimensions of the last reset |
| Replay.ForwardReplayOnEmulator | crates/tttt-log/src/replay.rs:26-56 | On every emulator a forward replay is the events run straight on it: output processed in order, resizes to the rows and columns they give, nothing else |
| Replay.EveryRunOnEmulator | crates/tttt-log/src/replay.rs:60-85 | So is any history of steps and seeks, up to its position, from a blank screen of the size of the last reset |
| Replay.SeekRewindsIff | crates/tttt-log/src/replay.rs:60-85 | A seek starts over if and only if it goes to an earlier position or to a time before the last event played, and then at the dimensions of the moment |
| Replay.PathIndependentIffBaseUnchanged | crates/tttt-log/src/replay.rs:60-85 | Every emulator shows what a fresh forward replay shows if and only if the last reset used the original dimensions |
| Replay.SeeksArePathIndependent | crates/tttt-log/src/replay.rs:60-85 | Without resize events every history shows what a fresh forward replay shows |
| Replay.RewindShowsOriginalIffDimsUnchanged | crates/tttt-log/src/replay.rs:60-69 | A rewinding seek shows the original screen on every emulator if and only if the view still has the original dimensions |
| Replay.OpeningResizeHidesBase | crates/tttt-log/src/replay.rs:60-69 | On an emulator that forgets the size of a blank screen, a log that opens with a full resize shows the original screens past it after any rewind |
| Replay.ResizeMakesRewindPathDependent | crates/tttt-log/src/replay.rs:60-69 | Every log of one resize that changes the dimensions has a history for which the screens differ |
| Replay.SomeResizeChangesDims | crates/tttt-log/src/replay.rs:35-49 | A document of type resize with 100 columns and no rows makes 80 by 24 into 100 by 24 |
| Glob.GlobMatch | src/ctl.rs:556-589 | True exactly when the name is the pattern with some string in place of each star |
| Glob.MatchParts | src/ctl.rs:565-588 | The loop over the parts decides anchored first part, leftmost middle parts, final suffix of what remains |
| Glob.GreedyTailComplete | src/ctl.rs:565-588 | Leftmost matching of the middle parts never loses a match |
| Glob.GreedyTailSound | src/ctl.rs:565-588 | What it accepts is an instance of the parts, with the text it skipped as fills |
| Glob.DenotesIffGreedy | src/ctl.rs:556-589 | Membership in the language is the anchored first part followed by greedy matching |
| ScreenDiff.NewContentIsScalarSuffix | crates/tttt-mcp/src/notification.rs:171-178 | The byte-level diff rounded down to a boundary is the code-point suffix after the longest common prefix |
| Notification.NotificationRegistry.AddWatcherInner | crates/tttt-mcp/src/notification.rs:90-116 | A bad pattern changes nothing; otherwise one watcher joins under a fresh id |
| Notification.NotificationRegistry.RemoveWatcher | crates/tttt-mcp/src/notification.rs:119-123 | Removes the watchers of that id and says whether there was one |
| Notification.NotificationRegistry.CheckSession | crates/tttt-mcp/src/notification.rs:132-207 | Injections in watcher order, remembered screens, and spent one-shot watchers gone |
| Notification.NotifyIdInjective | crates/tttt-mcp/src/notification.rs:101-102 | Different counters give different ids |
| Notification.DecimalStandsForNumber | crates/tttt-mcp/src/notification.rs:101-102 | The number in an id is written in decimal |
| Notification.StepKeepsInv | crates/tttt-mcp/src/notification.rs:90-207 | Ids stay distinct and are never handed out twice |
| Notification.OneShotFiresAtMostOnce | crates/tttt-mcp/src/notification.rs:132-207 | In any run a one-shot watcher fires at most once |
| Notification.RegisteredOneShotFiresAtMostOnce | crates/tttt-mcp/src/notification.rs:90-207 | So it does from its registration on, after any history |
| Notification.CheckInjectsAsRequested | crates/tttt-mcp/src/notification.rs:90-207 | Register a watcher after any history: from then on a check injects under its id, once, if and only if it is of the session watched, shows what is looked for, and the watcher is neither removed nor used up; every such injection carries the requested text to the requested session |
| Notification.InjectionsKeepOrder | crates/tttt-mcp/src/notification.rs:132-207 | Injections come in the order of the watchers |
| Notification.DiffWatcherRemembersLastCheck | crates/tttt-mcp/src/notification.rs:162-181 | A diff watcher's memory is the last screen checked since its registration |
| Notification.DiffWatcherSilence | crates/tttt-mcp/src/notification.rs:162-185 | It stays silent on its first check and on an unchanged screen |
| Notification.DiffWatcherFiresOnNewText | crates/tttt-mcp/src/notification.rs:162-204 | After any run it fires exactly when its pattern matches the text after the longest common prefix, if there is any |
| Paste.ProcessPasteBytes | src/attach.rs:42-125 | The loop runs the automaton; from the idle mode it leaves the mode of the text read so far, and reports detach if and only if a detach byte stands where neither a paste nor a possible opening is open |
| Paste.FeedReadsText | src/attach.rs:42-125 | From the idle mode the automaton agrees with reading the stream as text, outside text and payloads in turn: ESC [ 2 0 0 opens a paste, and an opening or end marker that breaks off is skipped |
| Paste.DetachReadsText | src/attach.rs:42-125 | So detach is reported exactly where that reading has nothing open |
| Paste.MarkerBytes | src/attach.rs:42-125 | The opening, the end marker, ESC and the detach key, byte by byte |
| Paste.ReadBoundariesDoNotMatter | src/attach.rs:42-125 | However a stream is cut into reads, the final mode and the detach report are those of the uncut stream |
| Paste.LeavesPasteOnlyAfterEndMarker | src/attach.rs:84-121 | A paste is left only right after the literal bytes ESC [ 2 0 1 ~ |
| Paste.ScanAgreesWithFeed | src/attach.rs:84-121 | In a paste the automaton agrees with reading the payload as text, restarting after each broken marker |
| Paste.EndMarkerClosesIffOpen | src/attach.rs:84-121 | The end marker closes a paste if and only if the payload does not stop part-way through a marker |
| Paste.StrayEscapeKeepsPasteOpen | src/attach.rs:84-95 | One stray ESC before the marker keeps the paste open |
| Paste.BracketedPasteIsInert | src/attach.rs:42-125 | A bracketed payload without ESC never detaches and returns to the idle mode |
| Base64.Encode | crates/tttt-log/src/event.rs:89-110 | The chunk-of-three loop computes the specified text |
| Base64.Decode | crates/tttt-log/src/event.rs:112-144 | The chunk-of-four loop computes the specified bytes or the first error |
| Base64.RoundTrip | crates/tttt-log/src/event.rs:89-144 | Decoding an encoding gives every byte sequence back |
| Base64.EncodedLength | crates/tttt-log/src/event.rs:89-110 | Four symbols for every started group of three bytes |
| Base64.EncodedPadding | crates/tttt-log/src/event.rs:89-110 | Padding stands only at the end: none, two or one symbols (section 4 of RFC 4648) |
| Base64.TripleSextets | crates/tttt-log/src/event.rs:93-108 | The four sextets cut from a triple carry its three octets |
| Base64.QuadOctets | crates/tttt-log/src/event.rs:126-141 | The three octets cut from a quad carry its four sextets |
| Base64.ReencodesIffCanonical | crates/tttt-log/src/event.rs:89-144 | Decoding then encoding gives a text back if and only if it is canonical |
| Base64.DecodeErrorIsFirstBadByte | crates/tttt-log/src/event.rs:112-144 | Decoding fails exactly when a whole group holds a byte outside the alphabet, and names the first one |
| Base64.GroupReads | crates/tttt-log/src/event.rs:112-144 | Any group of four, well padded or not, reads as the bytes of its 24 bits, the second left out if the third symbol is padding and the third if the fourth is |
| Base64.TextReadsByGroups | crates/tttt-log/src/event.rs:112-144 | A text reads group by group, a rest of fewer than four bytes as nothing |
| Base64.AlphabetIsRfc4648 | crates/tttt-log/src/event.rs:86-87 | The symbols are those of section 4 of RFC 4648, in order |
| Base64.ReadsAlphabet | crates/tttt-log/src/event.rs:112-144 | A byte is read as a value if and only if it is that symbol, padding standing for zero too |
| PaneGrid.ComputeGridDims | src/app.rs:408-435 | Whichever candidate the scoring prefers, no more columns than panes, just enough rows, and no other candidate beats it where the comparison chains |
| PaneGrid.PlaceGrid | src/app.rs:361-386 | The two loops place the specified rectangles |
| PaneGrid.GridIsExact | src/app.rs:354-388 | For every pane count and area there are exactly n rectangles and each cell lies in exactly one |
| PaneGrid.GridIsInReadingOrder | src/app.rs:361-386 | Panes come row by row from the top, each row from the left |
| PaneGrid.PaneIsAt | src/app.rs:361-386 | Every row but the last is full, and the last shares its whole width among the panes left |
| PaneGrid.ComputePaneLayout | src/app.rs:328-393 | The layout has n panes in reading order that cover the grid area once and nothing else, beside hint and sidebar |
| PaneGrid.HitTest | src/app.rs:2083-2088 | Finds a pane exactly when one is under the pointer, and the only one when there is one |
| PaneGrid.PaneUnderPointer | src/app.rs:2077-2088 | The layout's hit-test finds the one pane under the pointer, and finds one exactly on the grid |
| PaneGrid.MousePress | src/app.rs:2062-2107 | A left press goes to the sidebar, or focuses the one inactive pane under the pointer in split view, or selects: each exactly under its guards |

## Left out

* Terminal emulation, rendering, the layout solver, polling, signals, sockets, TLS, HTTP, authentication and reload:
  libraries and I/O. Replay uses the parser's call history, the grid a solver that tiles.
* `input_matches` and its helpers: an arbitrary answer per visit, which makes the protocol results stronger.
* Dirty tracking and the debounce of rendering: several paths mark the screen dirty without a first-dirty time, so no
  bound on latency is claimed.
* Config parsing, CLI, MCP tool definitions, clipboard, `log_session_end`, `calculate_min_dimensions`,
  `prefix_key_name` and similar: they would add easy members only.
* Durations compared as 64-bit floats in seconds are compared exactly here, in nanoseconds.
* Counters, lengths and screen coordinates are unbounded integers, except the 16-bit truncation of replayed resizes,
  the 64-bit limits of stored timestamps and JSON numbers, the cap on range queries, the 16-bit poll timeout and the
  saturating click test.
* The composed text of a scheduler message and its key decoding: `Message` carries both as data. Texts begin with
  `[ENTER]`, so `Pipeline` takes no message to decode to nothing.
* Sessions found by display name in the delayed-Enter and scheduler modules, including that a deferred event files its
  text under the id it was given: targets are session ids there. The web viewer's snapshot does resolve names.
- Scheduler.App.DrainPendingInput: sessions and their queues are one value per id, a `Line`, and the queues of a session that is gone are known by its id only, since their contents are thrown away.
- InjectedEnter.DelayedEnters.DrainDelayedEnters: removes and updates entries in a sequence one at a time, where `retain_mut` compacts the vector in place.
- Notification.NotificationRegistry.CheckSession: the compiled pattern is always present, as every constructor makes it.
- Glob.GlobMatch: strings are sequences of code points, where the code slices UTF-8 bytes at occurrences of whole parts.
- Replay.SessionReplay.StepForward: whether the bytes of a meta event parse as JSON, and to what, comes with the event.
- PaneGrid.ComputeGridDims: the aspect-ratio scores and the tie-break towards fewer rows are 32-bit float arithmetic and here an arbitrary relation, so the grid picked is only promised to be unbeaten where that relation chains, which comparing floats up to an epsilon need not.
- PaneGrid.MousePress: what a press in the sidebar or a selection then does is not part of this model.
- WebViewerRuns.RefcountsAreExact: retargeting the watch set and setting the viewer's field are one step, and an aborted push task takes no further step.
- WebViewerRuns.PushSyncsClient: messages reach the client in the order they were made; the highlight of the active session after a switch by the viewer itself, and the browser's own reset on a created session, are not part of the mirror.
