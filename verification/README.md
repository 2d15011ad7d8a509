# voolo-whatsapp-bridge: a verified model of its state machines and byte loops

The bridge links to WhatsApp as a device and talks to its client over stdin
and stdout, one JSON object a line. This project models the parts of it that
it writes itself and that carry an obligation over a whole run or over every
input, and proves those obligations with Dafny. WhatsApp's library, SQLite,
the JSON library, the operating system and the clock are not modelled: their
answers are parameters of an operation or choices of a step.

`dafny verify dfyconfig.toml` checks everything.

| file | models |
|---|---|
| `Shutdown.dfy`, `Writer.dfy`, `StoreLock.dfy` | Stop, logout and the quiesced stdout: the main thread, any number of goroutines Stop waits for, any number of event handlers it does not wait for |
| `SendPath.dfy`, `SendRate.dfy`, `SendRuns.dfy`, `Backstop.dfy`, `Outbox.dfy` | the send commands: the one slot, the backstop's list, the outbox table, restarts |
| `HistoryWindow.dfy`, `HistoryCaps.dfy`, `HistorySplit.dfy`, `HistoryBytes.dfy`, `HistoryJson.dfy`, `HistoryEmission.dfy`, `HistoryQueue.dfy` | history: the acknowledgement window, the caps, the batches, their encoded size and the bytes printed, their emission, the queue and its signal |
| `Ogg.dfy` | the walk over an Ogg Opus file |
| `LineReader.dfy`, `LimitedBody.dfy` | the stdin line reader and the length-limited body |
| `Ulid.dfy` | ULID encoding |
| `Surrogates.dfy` | the scan for unpaired surrogate escapes |
| `Alias.dfy` | reported chats and their `@lid` aliases, in memory and in the store |
| `Lru.dfy` | the bounded map of message senders |
| `Prelude.dfy`, `Messages.dfy` | shared vocabulary |

Code that changes objects step by step is modelled as classes and methods,
each proved against a function or predicate on values; a protocol between
goroutines is a step relation over those functions, and a claim about it is a
lemma about every state of every run (`IsRun`). Times are integer
milliseconds; 32- and 64-bit wrap-around is written out where the code can
reach it.

## Where the code and its documentation differ

The model follows the code. These statements are false of it as written. For
each there is a run or an input that shows it, and a theorem that says when the
statement holds.

- `LoggedOut` is said to tell, after Stop, whether the store was deleted. A
  goroutine that outlives the 1.5 s wait can record a logout after Stop has
  read that there was none: the exit code is 7 and the store is kept
  (`Shutdown.SevenWithoutWipe`). It is 7 as well if the deletion fails, with a
  completed wait and a logout known in time (`Shutdown.SevenNotDeleted`). Code
  and deletion agree exactly if nothing is recorded between the two readings
  and the deletion does not fail (`Shutdown.ExitCodeTellsDeletionIff`); a
  completed wait guarantees the first (`Shutdown.WipedIffLoggedOut`). After a
  fatal error the exit code is that error's, so a logout that comes on top of
  exit 5 deletes the store without exit 7 (`Shutdown.FiveAndDeleted`,
  `Shutdown.FatalCodeTellsDeletionIff`).
- Section 6.11 of the protocol lists `status {stopped}` among the final lines.
  If an event handler sets the state to stopped and comes to write its line only
  when stdout is quiesced, that line is dropped, and Stop writes none because
  the state does not change any more (`Shutdown.StopWithoutStatus`). The line is
  there exactly if the state was another one when Stop set it
  (`Shutdown.StatusToldIff`).
- A refused send is said to leave its outbox id unused (the comment at
  internal/wa/commands.go:116). It does not when the second statement of the
  reservation fails (`SendPath.RefusalUsesTheIdIff`).
- The last 1,000 outbox ids are said to be remembered. With the clock set back
  over a full table a new id is forgotten at once and the same id is handed over
  again (`SendRuns.ForgottenIdIsSentTwice`). A new id is remembered exactly if
  fewer than 1,000 rows are later (`Outbox.RememberedIff`), and with a clock
  that does not go back 1,000 other reservations lie between two hand-overs of
  one id (`SendPath.HandOversOfOneId`).
- The backstop is said to hold across restarts. It does not if the time of a
  hand-over was not written or not read (`SendRuns.LostHandOverBreaksTheFloor`),
  nor if a thousand sends that gave up before their hand-over have pushed its
  row out of the table (`SendRuns.ForgottenHandOversBreakTheWindow`). The list a
  new process starts with is the log of the last window exactly if the rows of
  its hand-overs are still there with their times and could be read, or there
  were none (`SendRate.ReloadIsExactIff`, `SendRate.RestartLosesNothingIff`).
  They are there if each was marked and fewer than 1,000 reservations followed
  (`SendRate.WellKeptIsFaithful`), and then, with a clock that does not go back,
  the rate holds over every run (`SendRate.RateBoundByActions`).
- `sync_progress` done is said to close the history. Batches can follow it, even
  of a notification that came before the announcement
  (`HistoryQueue.BatchesCanFollowDone`). Once the worker has nothing left, done
  is last exactly if nothing is emitted for any notification that was queued at
  the announcement or has come since (`HistoryQueue.DoneIsLastIff`).
- `aliasOf` is said to be sent once per `@lid` chat, also across restarts
  (section 5.12). If the insert of a reported chat is written after its alias
  was resolved, or the write of the alias fails, the table forgets the
  announcement (`Alias.LateInsertForgets`, `Alias.FailedResolveForgets`), and
  the next process makes it again (`Alias.ForgottenIsAnnouncedAgain`,
  `Alias.AnnouncedTwice`). The table remembers it exactly if, when the alias was
  written, the write went through and the chat had been inserted
  (`Alias.RememberedIff`); if that is always so, no chat is announced twice
  (`Alias.AnnouncedOnceIfInTurn`). A process that ends between that write and
  the line never makes the announcement (`Alias.AnnouncementIsLost`), nor does
  any later one (`Alias.UnannouncedForGood`).
- The duration of a voice note is said to be its largest granule minus the
  pre-skip (section 6.6). A file of 47 bytes whose granule lies within a second
  of 2^64 is read as one second long (`Ogg.WrappedFileIsOneSecond`), because
  rounding up wraps. The duration is exact exactly if it does not wrap, or the
  file is long enough for the largest duration (`Ogg.DurationIsExactIff`).

## Model

| member | source | states |
|---|---|---|
| Shutdown.NothingAdmittedAfterStop | internal/wa/bridge.go:308-316 | in every run, from the moment `stopped` is set no goroutine is added to those Stop waits for |
| Shutdown.FinalLines | internal/wa/bridge.go:484-507 | in every state of every run stdout is ordinary lines followed by exactly the final lines due so far |
| Shutdown.LastLines | PROTOCOL.md:315 | over every run of an initialized bridge, once it has exited: stdout ends with exactly error store_io if the wipe failed, logged_out with its reason and code if Stop read a logout, status stopped if the state was another one when Stop set it, ok for the logout command if there was one, ok for the shutdown command if it was one; before them only events and status lines |
| Shutdown.LastLinesUninitialized | cmd/voolo-whatsapp-bridge/run.go:168-173 | without init stdout ends with the ok for the shutdown command, or nothing |
| Shutdown.FinalReplies | internal/wa/bridge.go:484-507 | over every run that has exited, a line that is neither event nor status is on stdout exactly if it is store_io and the wipe failed, logged_out with the reason and code of the logout read, ok with that logout's non-empty id, or ok with the id of the shutdown command |
| Shutdown.ShutdownReplyIsLast | cmd/voolo-whatsapp-bridge/run.go:168-173 | a run ended by a shutdown command has ok with its id as the very last line |
| Shutdown.FinalsInOrder | PROTOCOL.md:315 | the final lines are a subsequence, without repetition, of store_io, logged_out, status, ok of logout, ok of shutdown |
| Shutdown.OnlyFinalsAfterQuiesce | internal/protocol/envelope.go:271-292 | once quiesced the ordinary part of stdout never changes, whatever outlives the wait |
| Shutdown.StoreClosedOnce | internal/store/store.go:81-91 | in every run the store is closed at most once and never while a thread is inside a store method; after the stop of an initialized bridge exactly once, and wiped exactly if the logout Stop read was there |
| Shutdown.WipedIffLoggedOut | internal/wa/bridge.go:471-496 | if the wait completed, Wipe ran exactly if a logout was recorded at any point of the run, the store is deleted exactly if Wipe did not fail then, and a shutdown or end of stdin exits 7, else 0 |
| Shutdown.ExitCodes | PROTOCOL.md:381-391 | over every run: no init in time exits 6, a fatal request exits with the code asked for, anything else 0 or 7, and 7 only after a logout |
| Shutdown.FirstsStay | internal/wa/bridge.go:200-206 | over every run the first logout recorded and the first exit code asked for are never replaced |
| Shutdown.ExitCodeTellsDeletionIff | cmd/voolo-whatsapp-bridge/run.go:70-75 | whether or not the wait completed, exit code 7 tells whether the store was deleted exactly if no logout was recorded between Stop's reading and stopCode's and the deletion did not fail |
| Shutdown.SevenWithoutWipe | internal/wa/bridge.go:509-515 | a run that exits 7 and never tries to delete its store |
| Shutdown.SevenNotDeleted | internal/wa/bridge.go:484-496 | a run that exits 7 with its store not deleted, although the wait completed and Stop knew of the logout |
| Shutdown.FatalSevenWiped | internal/wa/bridge.go:530-547 | a stop asked for by a logout exits 7 and has run Wipe, whether or not the wait completed; the store is deleted unless that failed |
| Shutdown.FatalCodeTellsDeletionIff | cmd/voolo-whatsapp-bridge/run.go:70-75 | over every run that ends by a fatal error: it exits with that error's code; code 7 tells the deletion exactly if the deletion did not fail, any other code exactly if there was no logout or the deletion failed |
| Shutdown.FiveAndDeleted | internal/wa/pairing.go:255-260 | a run in which an event handler asks for exit 5, a goroutine records a logout, and the store is deleted under exit code 5 |
| Shutdown.StopEnds | internal/wa/bridge.go:471-515 | once Stop has read the logout and no thread is inside the store, nothing keeps the main thread from its exit, whatever the other threads are doing |
| Shutdown.StatusToldIff | internal/wa/bridge.go:484-507 | over every run: when Stop and run have ended, a status line is among the final lines of stdout exactly if the state was not stopped when Stop set it |
| Shutdown.StopWithoutStatus | PROTOCOL.md:315 | a run from the start in which an initialized bridge ends, its wait completed, without a status line |
| Shutdown.Bridge.GoSafe | internal/wa/bridge.go:308-316 | a goroutine is counted exactly if Stop has not begun |
| Shutdown.Bridge.BeginStop | internal/wa/bridge.go:453-459 | only the first Stop goes on |
| Shutdown.Bridge.LoggedOutBy | internal/wa/bridge.go:530-547 | the first logout of the session is recorded, and asks for exit 7 unless an exit was asked for before |
| Shutdown.Bridge.Record | internal/wa/bridge.go:531-536 | the first section of it: only a logout of the session, and only the first, is recorded |
| Shutdown.Bridge.ChangeState | internal/wa/bridge.go:220-229 | the state is set, and reported as changed exactly if it was another |
| Shutdown.Bridge.Report | internal/wa/bridge.go:484-507 | the end of Stop writes store_io if the wipe failed, then logged_out with reason and code, status stopped if the state was another, ok for the logout command, each line spelled out, and sets the state |
| Writer.Writer.EmitLine | internal/protocol/envelope.go:271-284 | a line is written unless the writer is quiesced and the line is not final; otherwise it is counted as dropped |
| StoreLock.Store.Use | internal/store/store.go:81-91 | a reader is admitted exactly if the store is not closed |
| StoreLock.Store.Close | internal/store/store.go:247-265 | closes the database once, drops the process lock |
| StoreLock.Store.Wipe | internal/store/store.go:268-286 | closes the database if it is open, tries to delete each file, tells whether all could be, and drops the process lock in any case |
| SendPath.SlotHasOneOwner | internal/wa/commands.go:122-143 | in every state of every run, with any clock, panics and restarts, `sending` is set exactly while one command has taken the slot and not run its Once |
| SendPath.OwnerIsUndisturbed | internal/wa/commands.go:126-127 | no step of another command, its stale second release included, frees the owner's slot or changes the list, the table or the log |
| SendPath.LeftAloneFreesTheSlot | internal/wa/commands.go:232-265 | from any point a command that goes on alone ends, the others untouched, and if it owned the slot the slot is free |
| SendPath.OwnStepsCountDown | internal/wa/commands.go:117-201 | each of a command's own steps, refusals, early releases and panics included, brings it nearer to its end |
| SendPath.EveryPathGivesBack | internal/wa/commands.go:128-134 | a command that has ended does not hold the slot, and one that has not always has a next step |
| SendPath.TableIsEndOfLedger | internal/store/store.go:290-308 | over every run with a clock that does not go back, restarts and failed writes included, the table is the end of all reservations, at least the last 1,000, ids distinct, and every marked row bears the time of its own hand-over |
| SendPath.ReserveKeepsTable | internal/store/store.go:290-308 | a reservation reports a duplicate exactly for an id in the table, and otherwise leaves the last min(n, 1,000) |
| SendPath.HandOversOfOneId | internal/wa/commands.go:144-166 | two hand-overs of one outbox id have at least 1,000 other reservations between them |
| SendPath.RefusalUsesTheIdIff | internal/wa/commands.go:111-116 | a refusal leaves the table as it was except exactly when the delete of the reservation fails; then the id is used |
| SendPath.BeginAnswers | internal/wa/commands.go:117-168 | a send on its own reaches the hand-over, and holds the slot, exactly if no check in the documented order refuses it |
| SendPath.BeginLeaves | internal/wa/commands.go:117-168 | what slot, list and table are after each answer |
| SendPath.Bridge.BeginSend | internal/wa/commands.go:117-168 | the exact condition of each of the answers not_connected, busy, unknown_chat, duplicate_outbox_id, rate_limited_local, store_io, and what slot, list and table are after each; all as the machine's steps leave it |
| SendPath.DeliverLeaves | internal/wa/commands.go:172-182 | the machine's hand-over and release leave the time recorded, the row marked if that write succeeds, and the slot free |
| SendPath.Bridge.Deliver | internal/wa/commands.go:172-182 | the code leaves the same |
| SendRate.RateBound | internal/wa/commands.go:52-56 | over every run with a clock that does not go back and faithful restarts: hand-overs at least 1 s apart, at most 30 in any half-open 10 minutes, and the list in memory decides as the full log |
| SendRate.RateOverEveryRun | internal/wa/commands.go:172-174 | the invariant behind it: the list is a rest of the log, and a command between check and hand-over was allowed by the whole log |
| SendRate.ReloadIsExactIff | internal/wa/bridge.go:365-372 | the list a new process starts with, read and clamped, is the log of the window exactly if each hand-over in it still has its row with its time and the table could be read, or there is none |
| SendRate.RestartLosesNothingIff | internal/wa/bridge.go:365-372 | the same of the state after a restart, over every run with a clock that does not go back and faithful restarts before |
| SendRate.WellKeptIsFaithful | internal/store/store.go:511-523 | over every run with a clock that does not go back: if each hand-over of the window was marked and fewer than 1,000 reservations came after it, the restart finds its row |
| SendRate.RateBoundByActions | PROTOCOL.md:278 | the spacing and the thirty per window over every run with a clock that does not go back and such restarts, from the actions alone |
| SendPath.ReloadAscends | internal/wa/bridge.go:365-372 | whatever the clock did, a process starts with an ascending list of times up to now |
| SendRuns.LostHandOverBreaksTheFloor | internal/wa/bridge.go:365-372 | a run with a clock that goes forward, in which the time of the first hand-over is not written or not read, and the second comes 2 ms later |
| SendRuns.ForgottenHandOversBreakTheWindow | internal/store/store.go:303 | a run with a clock that goes forward and every hand-over marked, in which 31 hand-overs lie within 30 s because 1,000 sends gave up before a restart |
| SendRuns.ClockBackBreaksTheFloor | internal/wa/commands.go:172-174 | a run in which the clock is set back between check and hand-over, and two hand-overs lie half a second apart |
| SendRuns.ForgottenIdIsSentTwice | PROTOCOL.md:275 | for any 1,000 ids, time and further id: a run in which the clock is set back by 1 ms over the full table and that id is handed over twice, by adjacent reservations |
| SendRate.HandOverKeepsRateIff | internal/wa/commands.go:155-174 | with any clock between check and hand-over the log stays spaced exactly if it allows the send at the second reading |
| Backstop.DecidesAsTheLog | internal/wa/commands.go:60-78 | the pruned list decides as the whole log of hand-overs, and what is kept is again the end of it |
| Backstop.NeverBlocksLongerThanTheWindow | internal/wa/commands.go:81-84 | for any times and any clock readings, forwards or back, a call one window after an earlier one is allowed if nothing was handed over since |
| Backstop.ClampSorted | internal/wa/commands.go:85-103 | clamping a sorted list keeps it sorted and its times up to now unchanged |
| Backstop.ClampAtMost | internal/wa/commands.go:85-103 | no clamped time lies after now or after the latest time before the clamp |
| Backstop.FloorTripsOnlyFromASend | internal/wa/commands.go:74-76 | for any list the floor refuses only because of a hand-over less than 1 s before now |
| Backstop.FloorIff | internal/wa/commands.go:74-76 | on a sorted list exactly then |
| Backstop.FutureIsPulledToNow | internal/wa/commands.go:80-93 | of any list a time after now becomes one at most 1 s before now, never later |
| Backstop.KeptCounts | internal/wa/commands.go:60-71 | a list in order keeps exactly as many entries as lie less than 10 minutes before now, or after it |
| Backstop.AllowsIff | internal/wa/commands.go:60-78 | whatever the clock did: a list in order lets a send through exactly if fewer than thirty of its entries are less than 10 minutes old or after now, and none is from the last second |
| Backstop.SpacedAppend | internal/wa/commands.go:105-109 | a hand-over keeps a spaced log spaced exactly if the log allows it |
| Backstop.AtMostThirtyPerWindow | internal/wa/commands.go:52-56 | a spaced log has at most 30 hand-overs in any half-open interval one window long |
| Backstop.ClampSends | internal/wa/commands.go:85-103 | the two loops compute the clamp |
| Backstop.Limiter.BackstopAllows | internal/wa/commands.go:60-78 | answers by the clamped and pruned list, and keeps it |
| Outbox.ReserveInOrder | internal/store/store.go:290-308 | with times that do not go back a reservation leaves the last 1,000 rows, its own last |
| Outbox.RememberedIff | internal/store/store.go:303 | with any clock a new id is remembered exactly if fewer than 1,000 remembered ids carry a later time |
| Outbox.RowStaysIff | internal/store/store.go:303 | with any clock a row stays exactly if fewer than 1,000 rows, the new one included, have a later time or the same time and were entered later |
| Outbox.RecentSendsAscend | internal/store/store.go:541-564 | for any table and clock the times after `since` come back in ascending order, exactly those of the rows, each as often as it is in a row |
| Outbox.Store.ReserveOutbox | internal/store/store.go:290-308 | insert unless known, then trim; what is left after either statement fails |
| Outbox.Store.MarkDispatched | internal/store/store.go:511-523 | writes the time into the rows of the id and nothing else |
| Outbox.Store.OutboxKnown | internal/store/store.go:525-537 | the count of the rows with the id is positive exactly if some row has it, which is when a reservation would report a duplicate |
| HistoryWindow.EveryRun | internal/history/history.go:40-90 | in every run of waiters, client and cancellations the window is safe and no wake-up is lost: a waiter on an open channel means the window is full |
| HistoryWindow.InFlight | internal/history/history.go:40-62 | outstanding is always a contiguous interval ending at next - 1, of at most `size` granted sequence numbers |
| HistoryWindow.TakeRefines | internal/history/history.go:44-52 | Acquire refines two counters |
| HistoryWindow.AckRefines | internal/history/history.go:65-81 | so does an acknowledgement, cumulative, repeated or of the future, and it returns how many it freed |
| HistoryWindow.FreeingAckWakesAll | internal/history/history.go:76-79 | an acknowledgement that frees anything lets every waiter wake |
| HistoryWindow.Window.TryAcquire | internal/history/history.go:41-53 | takes the next number if there is room, else gives the channel to wait on |
| HistoryWindow.Window.Ack | internal/history/history.go:65-81 | removes what is acknowledged and closes the channel exactly if something was |
| HistoryWindow.Window.Reset | internal/history/history.go:84-90 | empties the window, closes the channel, does not restart the numbers |
| HistoryCaps.Caps.Filter | internal/history/history.go:114-144 | keeps the newest min(room, in-window) messages; kept + dropped = input; the count grows by what was kept; no chat ever exceeds its cap, over all calls |
| HistoryCaps.InWindowIs | internal/history/history.go:114-124 | the day cap leaves exactly the messages of the last `days` times 24 hours, those of one time in input order |
| HistoryCaps.KeptKeepsNewest | internal/history/history.go:125-138 | what is kept is ascending, stable on ties, part of the in-window input, and no dropped message is newer than a kept one |
| HistoryCaps.KeepsNewestIsDetermined | internal/history/history.go:125-138 | and those properties leave no other result |
| HistorySplit.Split | internal/history/history.go:153-171 | a contiguous partition of the input into non-empty batches within the limits, or singletons, none of which could take the next message |
| HistorySplit.SplitIsOptimal | internal/history/history.go:153-171 | no other partition within the limits has fewer batches |
| HistorySplit.SplitIsUnique | internal/history/history.go:153-171 | only one partition is maximal in this sense |
| HistorySplit.LimitsInNumbers | internal/history/history.go:146-171 | each batch has 1 to 200 messages, and more than one only if they fit 785,920 bytes with commas and chat; none could take the next message |
| HistorySplit.WithinBytesIffEachMessageIs | internal/history/history.go:153-171 | the messages of every batch are within the byte budget exactly if each message is |
| HistoryBytes.EveryLineKeepsTheLimit | PROTOCOL.md:332 | every line that carries a batch has at most 786,432 bytes encoded, whatever text, names, mentions and media the messages came with |
| HistoryJson.PrintedLineKeepsTheLimit | PROTOCOL.md:332 | the JSON printed for a batch line, its chat and its messages has at most 786,432 bytes |
| HistoryJson.MessageLength | internal/protocol/events.go:276-295 | the encoded size of a message is the length of its JSON, with every escape and omitempty field |
| HistoryJson.ChatLength | internal/protocol/events.go:172-182 | so is that of a chat |
| HistoryJson.LineLength | internal/protocol/events.go:345-351 | and that of the whole line |
| HistoryBytes.Conversation | internal/wa/historysync.go:181-262 | the batches emitted for a conversation hold exactly what the caps kept, in order, and every line fits |
| HistoryEmission.LinesKeepTheRules | internal/wa/historysync.go:234-240 | over every run of the worker, the window, the client and cancellations: batch lines are numbered 1, 2, 3, ..., carry the batches of the conversations in order, all of them unless cancelled, and are at most `size` ahead of the highest acknowledged number |
| HistoryBytes.MessageBound | internal/wa/events.go:364-418 | no message that toMessage makes of whatever it is given takes more than 554,034 bytes of JSON |
| HistoryBytes.ToMessageSpelled | internal/wa/events.go:364-418 | which messages are reported, and what each field is: the sender named or, in a chat of two, the chat; texts and names cut to their first characters; the first 64 people mentioned; no push name of one's own |
| HistoryBytes.OverheadCovers | internal/history/history.go:146-148 | 512 bytes cover all of a line but its messages and its chat |
| HistoryBytes.Truncate | internal/wa/convert.go:26-38 | the loop cuts a text to its first n characters |
| HistoryQueue.EveryRun | internal/wa/historysync.go:54-104 | in every run notifications are handled in order, none lost or repeated; what is emitted is what each gives, in order, but for one interrupted by a cancellation; done is announced at most once; and a queued notification always has a signal or a running worker coming |
| HistoryQueue.NoLostSignal | internal/wa/historysync.go:68-78 | a worker that waits while something is queued can go on, at once or after a pending signal |
| HistoryQueue.IdleWorkerCanFinish | internal/wa/historysync.go:64-79 | over every run a worker that waits after a notification can announce the end by the idle timer, unless that was done or the session is cancelled; and the end is never announced before a notification came |
| HistoryQueue.DoneIsLastIff | internal/wa/historysync.go:92-160 | over every run whose session is not cancelled, when the worker is at rest: done is the last event exactly if none of the notifications queued at the announcement or appended since gives anything to emit |
| HistoryQueue.BatchesCanFollowDone | internal/wa/historysync.go:156-158 | for any two notifications a run in which the second comes between the look at the queue and the announcement, and its batches follow done |
| HistoryQueue.Session.Enqueue | internal/wa/historysync.go:25-34 | appends, and leaves a signal |
| HistoryQueue.Session.Pop | internal/wa/historysync.go:36-46 | the oldest, or none |
| HistoryQueue.Session.HistoryDone | internal/wa/historysync.go:92-104 | announces only the first time, never when cancelled |
| Ogg.OggDurationSeconds | internal/media/media.go:298-349 | the loop computes the duration function of the bytes, with its 32- and 64-bit arithmetic |
| Ogg.PageLayout | internal/media/media.go:305-325 | a page is read from its bytes field by field: flags, granule, serial, sequence, checksum, lacing, data, as section 6 of RFC 3533 lays them out |
| Ogg.PreSkipOfHead | internal/media/media.go:329 | the pre-skip of an OpusHead is the 16-bit little-endian number written after version and channel count |
| Ogg.PreSkipBytes | internal/media/media.go:329 | it is byte 10 plus 256 times byte 11, of any first page |
| Ogg.FlagBits | internal/media/media.go:309 | begin and end of stream are the second and third bit of the flags, whatever the others |
| Ogg.PositiveIffValidStream | internal/media/media.go:298-349 | positive exactly if the bytes are the encoding of a valid page list |
| Ogg.DurationOfStream | internal/media/media.go:341-348 | and then it is the larger of the capped, rounded-up granule difference and one second per 72,000 bytes |
| Ogg.DurationOfBytes | internal/media/media.go:341-348 | the same with the pre-skip taken from those two bytes of the first page |
| Ogg.SecondsSpelled | internal/media/media.go:344-348 | the rounding in numbers: 48 kHz, 64-bit wrap, 2^31 - 1, 72,000 bytes a second |
| Ogg.FileIsFiveSeconds | internal/media/media.go:298-349 | a file given byte by byte, pre-skip 312 and last granule 240,312, is five seconds long |
| Ogg.DurationIsExactIff | PROTOCOL.md:291 | the duration of a valid stream is its largest granule minus the pre-skip, rounded up to seconds, exactly if the 64-bit sum does not wrap or the file's size decides |
| Ogg.WrappedFileIsOneSecond | internal/media/media.go:346 | for every granule within a second of 2^64 a valid file of 47 bytes that is read as one second long |
| Ogg.PagesOfEncoding | internal/media/media.go:304-340 | printing a page list and reading the pages gives it back |
| Ogg.EncodingOfWalk | internal/media/media.go:304-340 | printing the pages of any walked buffer gives the buffer back |
| Ogg.WalkOfEncoding | internal/media/media.go:304-340 | the walk over printed pages accepts exactly as the pages one by one |
| Ogg.AcceptsExactlyOrdered | internal/media/media.go:314-339 | accepted exactly if one serial, BOS first only, full OpusHead, sequence + 1 modulo 2^32, nothing after EOS, granules not decreasing |
| Ogg.NothingFollowsEnd | internal/media/media.go:304-306 | after an EOS page any further byte makes the file unreadable |
| Ogg.ExtensionNeverShortens | internal/media/media.go:341-348 | extending a readable file into a readable one never shortens it, unless the sum wraps |
| LineReader.Reader.ReadAll | internal/protocol/envelope.go:172-210 | for every stream and every chunking: exactly the lines of the stream, and Dropped grown by exactly its drops |
| LineReader.Reader.Next | internal/protocol/envelope.go:172-210 | the next line of the stream, and what it leaves |
| LineReader.LinesOfText | internal/protocol/envelope.go:155-158 | the lines are the newline-terminated rows of at most `max` bytes, without CR LF or LF; drops are the longer ones and a trailing partial |
| LineReader.FirstRow | internal/protocol/envelope.go:196-207 | what one row gives, whatever follows: a drop if it is longer than `max` with its newline, else the row without one final CR |
| LineReader.Unterminated | internal/protocol/envelope.go:183-195 | bytes without a newline give no line, and one drop at the end of the input |
| LineReader.EveryStreamIsText | internal/protocol/envelope.go:155-158 | every byte stream is rows and a rest, so that holds of all |
| LineReader.WrittenLinesComeBack | internal/protocol/envelope.go:172-210 | lines written with a newline each are read back unchanged |
| LineReader.CrLfLinesComeBack | internal/protocol/envelope.go:204-207 | lines written with CR LF each come back exactly, those that end in CR included |
| LimitedBody.Limited.Read | internal/transport/limit.go:70-86 | one read: what is delivered, what is left of the limit, which error |
| LimitedBody.DeliversPrefix | internal/transport/limit.go:65-86 | for any chunking and buffer sizes a prefix of the body, at most the limit |
| LimitedBody.FirstError | internal/transport/limit.go:65-86 | a body within the limit comes whole with the source's own error; a longer one gives exactly the limit, then ErrBodyTooLarge, one byte past it consumed |
| LimitedBody.NothingReadAhead | internal/transport/limit.go:70-86 | before the first error no byte is consumed that was not delivered |
| LimitedBody.ErrorIsNotSticky | internal/transport/limit.go:70-86 | a read after ErrBodyTooLarge may give another error |
| Ulid.New | internal/protocol/envelope.go:328-357 | 26 characters that hold two zero bits, the 48-bit time and the ten random bytes |
| Ulid.CrockfordTable | internal/protocol/envelope.go:312 | the alphabet string and the characters the digits are written as are the same 32 |
| Ulid.EncodeBytes | internal/protocol/envelope.go:338-356 | the accumulator writes the bits of any 16 bytes |
| Ulid.SameNumber | internal/protocol/envelope.go:338-356 | the characters denote the same number as the bytes |
| Ulid.DecodeOfEncoding | internal/protocol/envelope.go:31-38 | an encoding is a ULID, and decoding gives the bytes back |
| Ulid.EncodingOfDecode | internal/protocol/envelope.go:31-38 | every ULID is the encoding of what it decodes to |
| Ulid.TimePrefix | internal/protocol/envelope.go:330-334 | the first ten characters are exactly the time in milliseconds modulo 2^48 |
| Ulid.SortsLikeNumber | internal/protocol/envelope.go:312-313 | string order is the order of the numbers |
| Ulid.EarlierSortsFirst | internal/protocol/envelope.go:328-357 | an earlier millisecond sorts first, whatever the random bytes |
| Surrogates.LoneSurrogate | internal/protocol/commands.go:346-389 | the loop answers whether some surrogate unit is not half of an adjacent high-low pair |
| Surrogates.PairedIsAllPaired | internal/protocol/commands.go:346-389 | the scan from the left agrees with the reading of every position |
| Surrogates.AcceptedIffNothingReplaced | internal/protocol/commands.go:343-389 | accepted exactly if decoding the escapes replaces nothing |
| Surrogates.PrintedTextIsAccepted | internal/protocol/commands.go:343-389 | no printing of Unicode scalar values, raw or escaped, is refused |
| Surrogates.PrintedTextDecodes | internal/protocol/commands.go:346-389 | and it is read back unchanged |
| Surrogates.AcceptedTextDecodesToScalars | internal/protocol/commands.go:343-389 | accepted text decodes to scalar values only |
| Alias.AtMostOncePerProcess | internal/wa/events.go:144-219 | in every interleaving each @lid chat is announced at most once per process |
| Alias.AtMostOnceAcrossRestarts | internal/wa/bridge.go:415-424 | and at most once ever, if each restart finds every announcement in the table |
| Alias.ForgottenIsAnnouncedAgain | internal/wa/events.go:165-179 | from any reachable state whose table has forgotten an announcement a run goes on to make it again |
| Alias.LateInsertForgets | internal/wa/events.go:203-219 | for any chat and number a run from the start in which the write of markReported comes after that of alias, and the table forgets the announcement |
| Alias.FailedResolveForgets | internal/wa/events.go:173-176 | and one in which the write of alias fails |
| Alias.AnnouncedTwice | PROTOCOL.md:154 | a run from the start in which a chat is announced twice |
| Alias.RememberedIff | internal/store/store.go:487-507 | over every run, until the process ends: the table remembers an alias exactly if, when it was written, the write went through and the chat's row was there |
| Alias.AnnouncedOnceIfInTurn | PROTOCOL.md:154 | over every run, restarts included, in which writes go through and no alias is written while the insert of its chat is still to come, no chat is announced twice |
| Alias.AnnouncementIsLost | internal/wa/events.go:173-177 | a run in which the process ends between the write of the alias and its announcement |
| Alias.UnannouncedForGood | internal/wa/bridge.go:415-424 | a chat whose alias is stored and that nobody is about to announce is never announced, restarts included |
| Alias.WholeRun | internal/store/store.go:431-507 | with whole steps and successful writes memory and table agree after every step, for every reported chat |
| Alias.Index.ChatJID | internal/wa/events.go:144-163 | the name a chat is reported under, and what map, table and announcements are afterwards: those of a claimed alias if it was pending, else unchanged |
| Alias.Index.Alias | internal/wa/events.go:165-179 | claims, stores and announces a pending chat, once |
| Alias.Index.SweepLIDs | internal/wa/events.go:182-199 | exactly the pending chats whose number is known are announced and settled, in memory and in the table, their numbers are entered, nothing else changes |
| Alias.Index.MarkReported | internal/wa/events.go:203-219 | returns exactly the new chats and stores them |
| Alias.MarkSpelled | internal/wa/events.go:203-212 | what markReported leaves: all named chats are there, old ones as they were, new ones pending exactly if they end in @lid; the new ones are returned, each once |
| Lru.RunAgrees | internal/wa/commands.go:665-700 | after every run map and list hold the same distinct keys, the `max` last used, in order of use |
| Lru.StaysUntilMaxOthersUsed | internal/wa/commands.go:676-700 | a key is found, with its last value, exactly if fewer than `max` other keys were used since |
| Lru.NeverPutNeverFound | internal/wa/commands.go:692-700 | a key that was never put is not found |
| Lru.LRU.Put | internal/wa/commands.go:676-690 | replaces and moves to the front, or adds and drops the last one past `max` |
| Lru.LRU.Get | internal/wa/commands.go:692-700 | finds and moves to the front |

## Left out

- WhatsApp's library, protobuf mapping and event conversion: long case tables over types of another library; their answers are parameters.
- SQLite, its encryption and file locks, the hand-off files: only the meaning of the SQL on the tables and the lock discipline are modelled.
- The JSON library, field checks and regular expressions: library behaviour; what the JSON library writes is modelled for messages, chats and history lines only, and of it only the length is proved.
- Host allowlist, redirects, log scrubbing, flags, signing and scripts: settled by reading.
- Pairing: one guard around library calls and timers; rotation has no end to prove.
- `pinAllowed`, `voiceDuration`, media caps, mute times: one-branch variants that add nothing harder.
- Real time: the wait of Stop, idle timers and contexts end or time out at any moment.
- Shutdown: `sess` and `inited` are one flag, because the main thread sets both before it can stop; the pairing to cancel and the log lines on stderr are left out; a line too long to encode is not written and not modelled.
- Shutdown: a waiting writer of the read/write lock keeps out new readers in Go; here new readers may still come, which allows more runs.
- SendPath: recordSend and MarkDispatched are one step of the owner of the slot; a process that ends between them has recorded a hand-over that was not made.
- SendPath: one clock is read by the backstop and by the outbox. The shipped one is time.Now: the backstop's readings within one process compare by their monotonic part, which is never set back; stored times and those read back at a start are wall-clock times, which are.
- SendPath: the unknown-chat and the known-id check are one step, and what happens to a message after the hand-over is left out.
- Outbox: stored times are whole milliseconds, as all times of the model; the code keeps finer ones in memory.
- Alias.WholeRun: markReported and alias write the store after leaving the mutex; that memory and table agree is stated for whole steps, the interleaved claims are AnnouncedOnceIfInTurn and RememberedIff.
- HistoryBytes.Conversation: takes the JID of the chat and the @lids of mentions to have at most 128 characters, as the protocol says of every JID; the code does not check them, they come from WhatsApp's library.
- HistoryQueue: what processing one notification emits is one event, and whether it emits anything is a property of the notification; the session's context is a flag.
- HistoryEmission: a panic between the number and the line, after which the number would be missing.
- HistoryCaps.Caps.Filter: the sorts are insertion sorts on sequences; the library's stable sort is only known by its result.
