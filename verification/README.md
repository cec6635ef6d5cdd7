# A verified model of the tug agent

A Dafny 4.11 model of the agent's durable outbox and the delivery protocol around it, of its command inbox and
dispatch, its reconnect loop, and of the compact algorithms beside them. Check it with
`dafny verify dfyconfig.toml`.

## What is modelled

**The outbox and its protocol.** `Outbox` gives the queue's operations as values: what each does to memory, the list
of disks its writes pass through, and what a restart reads back. `OutboxQueue` is the program's form, an object
updated in place beside two files, whose methods are proved to do exactly that. `CrashSafety` shows every operation
atomic for a crash between any two writes and says exactly when the sequence counter survives. `DurableBox` sees
memory and disk as two copies of one box. `Delivery` puts agent, crashes, a lossy network and the server together
and proves at-least-once delivery, numbers that are never reused and gap-free pending intervals over all runs;
`CrashRun` is the two-crash run, from a first start, in which a fact is lost. `Flush` and `FlushLoop` are the sending
loop: first attempts in order, no starvation. `Retry` says when an item is offered again, `Compaction` when the log is
replaced, `Coalesce` covers coalescing, `AckState` the ack bookkeeping, self-heal and snapshot gate, `Containers` the
cache behind container status reports.

**Commands.** `Inbox` is the bounded receipt cache and its file; it refines an unbounded log. `Dispatch` is the machine
of deliveries, executions, results and restarts, interleaved at the program's critical sections;
`RunCommand` is the program's form over the real inbox and queue.

**Reconnecting.** `Config` is the loading of the intervals, `Reconnect` the backoff on 64-bit durations and the loop.

**Compact algorithms.** `Tail`, `Paths`, `Routes` with `Caddyfile`, `EnvFile` and `Stream`; `Text` has the string
functions they share, and says what they come to character by character (`Text.TrimTakesSpace`, `Text.EqualFoldIff`,
`Text.SpacesAre`).

## Where the code falls short of its own description

Each is a theorem here, with the exact condition under which the promise does hold.

- The package promises that a restart loses no command result (`internal/outbox/queue.go:3-5`). But a crash between a
  compaction's rename and its meta write, with a stale meta file and the newest item acknowledged, moves the counter
  back, and the server's acknowledgement then swallows the next fact (`CrashSafety.PositionKeptIff`,
  `Delivery.CarelessCrashLoses`, `CrashRun.AtLeastOnceCanFail`). And a crash between the start of a command and the
  queueing of its result loses the result fact (`Dispatch.ResultsKeptIff`); if the receipt had its result, a repeated
  delivery is still answered from it (`RunCommand.ReplayIsFaithful`).
- An acknowledgement is not compared with the counter; past it, enqueues report success and are dropped by the next
  start (`CrashSafety.EnqueueDurableIff`).
- A crash between the first log write and the first meta write makes the next process draw a new stream id over records
  of the old one (`CrashSafety.StreamKeptIff`).
- Items of the old meta format are read at the start, but the first meta write leaves them out: unless it belongs to a
  compaction, the next start misses each one without a log record (`CrashSafety.LegacyItemsKeptIff`).
- A sent envelope counts as never sent after a restart and can be rewritten (`Coalesce.ReopensIff`).
- A command runs more than once exactly when deliveries of it overlap between the receipt check and the running mark,
  as long as its receipt is not evicted and no restart falls between the two (`Dispatch.RunsOnceIff`,
  `Dispatch.RaceRunsTwice`).
- A comment promises not to add a snapshot to one that waits (`internal/agent/handshake.go:54-56`). Two do wait at
  once exactly when a sender enqueues beside one, which senders that overlap between gate and enqueue can
  (`Delivery.OneSnapshotIff`, `Delivery.GateRaceQueuesTwo`).
- Comments promise that the periodic refresh reports every container again and that a failed delta is tried again
  (`internal/agent/events.go:196-199`, `217-218`). But the refresh does not enter new containers into its cache, so
  deltas flow exactly when every listed container is in it, and only an action on a container puts it there; otherwise
  each refresh asks for a snapshot (`Containers.Deltas.PublishAllContainerStatuses`,
  `Containers.RefreshAloneSendsNoDelta`, `Containers.StillKnownIff`).
- Projects are not to take each other's domain (`internal/router/routes.go:113-115`). In one request that is possible
  exactly within one container; in two also when either side carries a container id; in three or more always
  (`Routes.TakeoverIff`).
- The self-heal reset comes after its check in a critical section of its own: an acknowledgement that falls between
  them does not call it off (`AckState.ResetIsDueIff`, `AckState.ResetAfterAck`).
- A route under a blank domain cannot be deleted (`Routes.DeletableIff`).
- Backing off stops altogether under delays of 146 years, which the configuration accepts (`Reconnect.NoBusyLoopIff`).

## Model

| member | source | states |
|---|---|---|
| `OutboxQueue.Files.WriteMeta` | internal/outbox/queue.go:165-183 | the meta file alone is replaced, and the resulting disk is one crash point |
| `OutboxQueue.Files.AppendRecord` | internal/outbox/queue.go:185-200 | one record more at the end of the log, and nothing else; one crash point |
| `OutboxQueue.Files.RenameOverLog` | internal/outbox/queue.go:235-237 | the log is replaced by the given items at once; one crash point |
| `OutboxQueue.Queue.constructor` | internal/outbox/queue.go:56-63 | a new queue starts at number 1, empty, nothing acknowledged |
| `OutboxQueue.Queue.Load` | internal/outbox/queue.go:85-163 | memory becomes the value of the recovery function on both files; a corrupt meta file stops it with nothing changed |
| `OutboxQueue.Queue.LoadMeta` | internal/outbox/queue.go:112-134 | stream id, counter and position from the meta file, and old-format items absorbed in order |
| `OutboxQueue.Queue.Take` | internal/outbox/queue.go:154-160 | an acknowledged item is skipped; another replaces what its number held and pushes the counter past itself |
| `Outbox.RecoverExactly` | internal/outbox/queue.go:85-163 | a restart finds, for every number above the acknowledged position, exactly the last record of that number, and a counter one past the highest or the one in the meta file |
| `Outbox.AbsorbItems` | internal/outbox/queue.go:122-133 | the load loop keeps exactly the last unacknowledged record of each number, over whatever it started with |
| `Outbox.AbsorbNext` | internal/outbox/queue.go:154-160 | the counter ends at the larger of where it stood and one past the highest record kept |
| `OutboxQueue.Queue.EnqueueCoalesced` | internal/outbox/queue.go:246-287 | rewrites an unsent item with the key if the map yields one, else adds one under the next number; two writes in order, log then meta |
| `OutboxQueue.Queue.Enqueue` | internal/outbox/queue.go:242-244 | always a new item, whatever is pending |
| `OutboxQueue.Queue.FindUnsent` | internal/outbox/queue.go:254-258 | finds an unsent item with the key if there is one, none only if there is none, and never for a blank key |
| `OutboxQueue.Queue.Acknowledge` | internal/outbox/queue.go:289-306 | cumulative and never backwards; compacts when the queue is empty or at the 32nd acknowledgement, else one meta write |
| `OutboxQueue.Queue.DropUpto` | internal/outbox/queue.go:296-300 | exactly the numbers up to the position are gone |
| `OutboxQueue.Queue.CompactLocked` | internal/outbox/queue.go:202-240 | the log is replaced by the unacknowledged items in order, then the meta file is written, and the counter of acknowledgements restarts |
| `OutboxQueue.Queue.Survivors` | internal/outbox/queue.go:203-209 | exactly the unacknowledged items |
| `OutboxQueue.Queue.DropSignals` | internal/outbox/queue.go:379-385 | exactly the signals go, and are counted |
| `OutboxQueue.Queue.DueItems` | internal/outbox/queue.go:308-328 | the batch is the specified one (see `Outbox.DueBatch`, `Outbox.DueCovers`) |
| `Outbox.DueBatch` | internal/outbox/queue.go:308-328 | at most `limit` items, strictly ascending, every one due and unacknowledged, as memory has it |
| `Outbox.DueCovers` | internal/outbox/queue.go:321-326 | a due item is left out only when the batch is full of smaller numbers |
| `Outbox.SortedKeysAre` | internal/outbox/queue.go:210-212 | sorting yields every number once, ascending |
| `OutboxQueue.Queue.MarkAttempt` | internal/outbox/queue.go:330-348 | the attempted item is rescheduled, 90 s after a success and by the retry table after a failure; only a failure writes; an item acknowledged meanwhile is not brought back |
| `OutboxQueue.Queue.ResetPendingForRecovery` | internal/outbox/queue.go:376-390 | drops exactly the signals and compacts if there were any; otherwise neither memory nor disk changes |
| `Outbox.ResetDropsIff` | internal/outbox/queue.go:376-390 | an item is dropped if and only if its class, white space and case aside, reads `signal`; the others stay as they are |
| `Compaction.CompactsWhenDue` | internal/outbox/queue.go:289-306 | over every run of a process an acknowledgement that moves the position replaces the log if and only if it leaves nothing pending or is the 32nd since the log was last replaced |
| `Compaction.LogStaysSmall` | internal/outbox/queue.go:202-240 | a replaced log holds one record for each pending item, as memory has it and in order; any other operation leaves the log, or adds the one record of an enqueue |
| `Compaction.WritesMade` | internal/outbox/queue.go:246-390 | how many writes each operation makes: two for an enqueue or a compaction, one for a failed attempt or a plain acknowledgement, none otherwise |
| `Retry.OfferedAgainIff` | internal/outbox/queue.go:330-348 | a new item is due at once; after any attempts on it, it is due exactly from 90 s after the last one if that got through, else from 2, 5, 10, 20 and then 30 s after it, by the number of attempts |
| `Retry.RestartForgetsAttempts` | internal/outbox/queue.go:341-347 | whatever was attempted, a restart finds every item with the schedule the log has |
| `OutboxQueue.Queue.HasPendingSnapshot` | internal/outbox/queue.go:356-368 | true exactly when an item of entity `runtime` and action `snapshot` is pending |
| `CrashSafety.CrashAtomic` | internal/outbox/queue.go:246-306 | cut any operation between any two of its writes: a restart finds the pending map of before it, or from the first write on the one after it, whatever stale records the log holds; after the last write it resumes exactly |
| `CrashSafety.WritesDescribe` | internal/outbox/queue.go:202-306 | what each intermediate disk of an operation describes |
| `CrashSafety.PositionKeptIff` | internal/outbox/queue.go:235-239 | the sequence counter survives a crash, if and only if it is not the one between rename and meta write of a compaction with a stale meta file and without the newest item |
| `CrashSafety.PositionMidCompaction` | internal/outbox/queue.go:235-239 | there, a restart resumes from the old acknowledged position with the new items |
| `CrashSafety.EnqueueDurableIff` | internal/outbox/queue.go:267-286 | a stored item, which carries the message as handed in under the next number and is due at once, survives a restart if and only if the acknowledged position is below its number, which the code does not check |
| `CrashSafety.LegacyItemsKeptIff` | internal/outbox/queue.go:121-133 | the first operation over a meta file of the old format keeps everything pending across the next restart, if and only if it writes nothing, or compacts, or each item it leaves pending has a log record |
| `CrashSafety.OpKeepsWellFormed` | internal/outbox/queue.go:45-54 | every operation keeps memory indexed by number, nothing acknowledged, nothing unassigned |
| `CrashSafety.OpMovesForward` | internal/outbox/queue.go:289-295 | exactly how each operation moves the counter and the position; neither moves back |
| `CrashSafety.StreamKeptIff` | internal/outbox/queue.go:100-116 | the process after a crash continues the stream its pending envelopes carry, if and only if nothing is pending, or a meta file has been written that names it without white space around it, or it draws the same id |
| `DurableBox.DoBox` | internal/outbox/queue.go:246-306 | memory and disk are two representations of one box, and every completed operation acts on both alike |
| `DurableBox.CrashBox` | internal/outbox/queue.go:246-306 | what box a crash leaves, for every operation and crash point |
| `DurableBox.RestartLinked` | internal/outbox/queue.go:85-98 | a restarted queue represents the box the disk did |
| `DurableBox.CarelessBox` | internal/outbox/queue.go:235-239 | in the one bad crash the counter falls to or below an acknowledged number |
| `Coalesce.OneUnsentKept` | internal/outbox/queue.go:254-266 | every operation keeps at most one never-sent item per key, whichever item the scan finds |
| `Coalesce.SentIsFrozen` | internal/outbox/queue.go:256-258 | an envelope sent in this life is never rewritten |
| `Coalesce.LastPayloadWins` | internal/outbox/queue.go:259-264 | from the first write on a restart finds the last message, payload, id, time and class, under the old number, kind, key and creation time, and nothing else changed |
| `Coalesce.ReopensIff` | internal/outbox/queue.go:255-258 | after a restart a number is open to rewriting if and only if its last record on disk says never sent, under the same key |
| `Coalesce.RestartForgetsSends` | internal/outbox/queue.go:345-347 | enqueue under a key, send, crash: the living process would never rewrite the envelope, the next one may, under the number the server may already have |
| `Delivery.AtLeastOnce` | internal/agent/events.go:31-78 | over every run of operations, crashes at any write, restarts and lossy delivery, each fact whose enqueue succeeded has been received or is pending in memory and on disk |
| `Delivery.ArrivesAsGiven` | internal/agent/transport.go:18-29 | over every such run the message handed to each completed enqueue, kind, class, id, time and contents, has been received or is pending |
| `Delivery.NothingElseArrives` | internal/agent/transport.go:18-29 | and whatever has been received was handed to some enqueue of the run |
| `Delivery.StepKeeps` | internal/agent/events.go:31-108 | every step of agent, network and server keeps the system invariant |
| `Delivery.RunKeeps` | internal/agent/events.go:31-108 | and so does every run without the one bad crash |
| `Delivery.NumbersAreNeverReused` | internal/outbox/queue.go:154-160 | over every such run a number stays with the envelope it was given to, and the counter a restart reads is the true one |
| `Delivery.EnqueueIsNew` | internal/outbox/queue.go:267-269 | a successful enqueue gets a number nothing had before |
| `Delivery.PendingIsGapFree` | internal/agent/transport.go:20-29 | over every such run pending numbers are one interval ending at the newest, starting right above the acknowledged position unless a compaction was cut; the self-heal reset drops nothing |
| `Delivery.OneSnapshotIff` | internal/agent/handshake.go:44-64 | over every such run at most one snapshot is pending throughout, if and only if every snapshot that joins the queue finds none there |
| `Delivery.AtMostOneSnapshot` | internal/agent/handshake.go:44-64 | so it is if senders do not overlap between gate and enqueue, whatever else comes in between, crashes and restarts included |
| `Delivery.TwoPastTheGate` | internal/agent/handshake.go:44-49 | in any state two senders that have both seen the gate open leave two snapshots pending |
| `Delivery.GateRaceQueuesTwo` | internal/agent/handshake.go:44-49 | the same as a run from a first start |
| `Delivery.CarelessCrashLoses` | internal/outbox/queue.go:235-239 | after every such bad crash the run can go on to lose any fact new to the server: stored, not received, and pending nowhere |
| `CrashRun.AtLeastOnceCanFail` | internal/outbox/queue.go:154-160 | the whole two-crash run from a first start, for any two facts with different message ids: it loses the second |
| `FlushLoop.Flusher.Round` | internal/agent/events.go:58-78 | one tick of the loop: the due batch, sent in order until a write fails, is a run of the flush machine |
| `FlushLoop.Flusher.Send` | internal/agent/events.go:62-66 | one socket write and its bookkeeping is one step of it |
| `FlushLoop.SentUntilFailure` | internal/agent/events.go:61-66 | a round sends the items of its batch in turn, up to and with the first whose write fails |
| `Flush.FirstAttemptsInOrder` | internal/agent/events.go:58-78 | first attempts happen in sequence order and never overtake a pending item, whatever is enqueued, acknowledged, dropped or failed in between |
| `Flush.SentWithinRounds` | internal/agent/events.go:58-78 | with r < 600 smaller numbers pending and ticks at most 1.2 s apart, a never-sent item is sent within r/8 + 1 rounds |
| `Flush.RestartIsStartable` | internal/outbox/queue.go:85-98 | what a restart loads is a valid start for both |
| `Flush.WritesStayPunctual` | internal/outbox/queue.go:246-306 | because whatever is written, at any crash point, schedules no never-sent item in the future |
| `AckState.Runtime.ConsumeAck` | internal/agent/events.go:36-44 | queue and tracked position after an acknowledgement |
| `AckState.Runtime.StartSession` | internal/agent/session.go:127-130 | a session starts from the queue position and counts as progress |
| `AckState.Runtime.AckProgressStalled` | internal/agent/events.go:112-126 | stalled exactly when 8 are pending, 45 s passed without progress and 2 min since a reset |
| `AckState.Runtime.SelfHeal` | internal/agent/events.go:83-97 | undisturbed, a check resets exactly when stalled, and stamps both times |
| `AckState.Runtime.SnapshotWouldPileUp` | internal/agent/handshake.go:57-64 | skips exactly when more than 24 are pending or a snapshot is |
| `AckState.Runtime.SendSnapshot` | internal/agent/handshake.go:39-52 | queues one fact if the gate is open and nothing otherwise |
| `AckState.Runtime.ApplyReset` | internal/agent/events.go:88-97 | the reset alone, a critical section after the check: only signals go, and both times are stamped |
| `AckState.SelfHealIsSafe` | internal/agent/events.go:83-126 | over every run of a process, acknowledgements and session starts between a check and its reset included: the tracked position stays at or below the queue position, neither moves back, and every reset was called for by a check with 8 pending, no progress for 45 s and no reset for 2 min |
| `AckState.ResetIsDueIff` | internal/agent/events.go:84-97 | no progress is recent for such a reset if and only if none came between the check and it; then 8 items are still pending and the times still hold |
| `AckState.ResetAfterAck` | internal/agent/events.go:84-97 | otherwise: from any stalled state a run acknowledges everything and still resets, with nothing pending, right after that progress |
| `AckState.TrackedExactly` | internal/agent/session.go:127-130 | from any session start on the two positions are equal, whatever follows |
| `AckState.StartIsTracked` | internal/agent/runtime.go:53-77 | a new process starts in a tracked state, whatever it loaded |
| `AckState.StallsIff` | internal/agent/events.go:112-126 | over every run from a new process acknowledgements count as stalled if and only if 8 are pending, 45 s have passed since the start, every acknowledgement that moved and every session start, and 2 min since every reset |
| `Containers.Deltas.PublishContainerDelta` | internal/agent/events.go:201-227 | a delta goes out exactly for a changed container with an id; the cache keeps it if it was sent and forgets the container if not |
| `Containers.Deltas.ContainerStateChanged` | internal/agent/events.go:229-245 | changed exactly when the cached key differs or is missing; only then the cache moves |
| `Containers.Deltas.PublishAllContainerStatuses` | internal/agent/events.go:148-179 | a snapshot and no cache change if and only if a listed container is unknown; else a delta for each changed one, in the order of the list, and unlisted ones forgotten |
| `Containers.Deltas.HasNew` | internal/agent/events.go:157-166 | true exactly when a listed container is unknown |
| `Containers.Deltas.PublishEach` | internal/agent/events.go:173-177 | every listed container is looked at, in order |
| `Containers.Deltas.ForgetMissingContainers` | internal/agent/events.go:183-191 | exactly the unlisted entries are gone |
| `Containers.Deltas.PublishContainerStatus` | internal/agent/events.go:128-146 | the first listed container with the id is looked at, and nothing else |
| `Containers.RefreshAloneSendsNoDelta` | internal/agent/events.go:157-171 | after any run from a new process, a refresh that lists a container no action was taken on sends no delta but asks for a snapshot |
| `Containers.OnlyActionsSeed` | internal/agent/events.go:157-179 | over every run the cache knows only containers that were acted on |
| `Containers.StillKnownIff` | internal/agent/events.go:173-220 | after a whole refresh a listed container is still known if and only if it had not changed or the socket took its delta |
| `Containers.FailedDeltaIsNotRetried` | internal/agent/events.go:215-220 | after a refresh with a failed send anywhere in it, the next one that lists the container finds it unknown and sends no delta |
| `Containers.CacheStaysTruthful` | internal/agent/events.go:148-245 | over every run of refreshes and actions the cache claims only states that were handed to the socket last, whichever deltas it takes |
| `Containers.CompleteRefresh` | internal/agent/events.go:173-178 | when all get through, the cache has the listed state of every container |
| `Containers.DeltaGoesOutIff` | internal/agent/events.go:173-220 | in a refresh that sends deltas one goes out for a container if and only if it has an id, its state differs from the last one reported, and the socket takes it |
| `Containers.UnlistedAreForgotten` | internal/agent/events.go:173-191 | such a refresh forgets every container that is not listed; any other changes nothing |
| `Containers.ActionSeeds` | internal/agent/events.go:128-146 | an action enters the state of the first listed container with the id into the cache, unless the socket turns its delta down, and changes no other entry |
| `Containers.StateKeyIsFaithful` | internal/agent/events.go:230-236 | as long as status, name, image and ports have no bar, two containers have the same state key if and only if all five fields are the same, white space aside, whatever the app label |
| `Inbox.CommandInbox.constructor` | internal/agent/command_inbox.go:30-37 | a new inbox holds what the file lists, later entries winning, blank ids skipped |
| `Inbox.CommandInbox.LoadFile` | internal/agent/command_inbox.go:57-63 | the load loop computes that |
| `Inbox.CommandInbox.Get` | internal/agent/command_inbox.go:66-71 | looks the trimmed id up |
| `Inbox.CommandInbox.MarkRunning` | internal/agent/command_inbox.go:73-79 | the id, trimmed, has a running receipt of this time, unless it is blank or the receipt was evicted at once; the file follows |
| `Inbox.CommandInbox.MarkResult` | internal/agent/command_inbox.go:81-92 | the id, trimmed, has a receipt with the result, its final status and this time, unless it is blank or the receipt was evicted at once; the file follows |
| `Inbox.CommandInbox.Upsert` | internal/agent/command_inbox.go:94-116 | a blank id changes nothing; otherwise the receipt is in, an oldest one is out if there are more than 256, and never more than 256 stay |
| `Inbox.CommandInbox.FindOldest` | internal/agent/command_inbox.go:103-111 | the scan finds a true minimum, in whatever order the map is walked |
| `Inbox.CommandInbox.Persist` | internal/agent/command_inbox.go:125-141 | the written file loads back to exactly the items |
| `Inbox.ReloadIsIdentity` | internal/agent/command_inbox.go:53-63 | any listing of the items, in any order, loads back to them |
| `Inbox.InboxRefinesLog` | internal/agent/command_inbox.go:94-116 | after any run of upserts in time order the inbox holds the latest receipts of 256 most recently updated ids, whatever shares a millisecond |
| `Inbox.InboxIsDetermined` | internal/agent/command_inbox.go:101-113 | if no two updates share a millisecond no other map fits that description |
| `Inbox.MostRecentIsUnique` | internal/agent/command_inbox.go:101-113 | the most recent entries are unique where times differ |
| `RunCommand.Dispatcher.constructor` | internal/agent/runtime.go:53-77 | a process starts in the machine state with the loaded receipts and nothing running |
| `RunCommand.Dispatcher.Replay` | internal/agent/command_dispatch.go:101-126 | answers if and only if the command has an id, is not streaming, and has a receipt under the trimmed id with a status it understands |
| `RunCommand.Dispatcher.Receive` | internal/agent/command_dispatch.go:21-23 | a delivery up to the receipt check is one step of the dispatch machine; it goes on exactly when not replayed |
| `RunCommand.Dispatcher.Begin` | internal/agent/command_dispatch.go:26-31 | the running mark is one step, with what goes on the socket around it, in order |
| `RunCommand.Dispatcher.Complete` | internal/agent/command_dispatch.go:66-82 | writing the receipt is one step |
| `RunCommand.Dispatcher.Publish` | internal/agent/command_dispatch.go:86-88 | queueing the result is one step: exactly one new durable item, a fact of entity `command` and action `result` whose id names the command and whose payload is the result, and which a self-heal reset keeps |
| `RunCommand.Dispatcher.Keep` | internal/agent/command_dispatch.go:81-88 | the receipt first, the fact second: two steps in that order, the final receipt in the inbox and one fact in the queue |
| `RunCommand.Dispatcher.PublishCommandResult` | internal/agent/command_dispatch.go:59-97 | a streaming result goes to the socket only, any other leaves its receipt and its fact; then the final progress |
| `RunCommand.Dispatcher.Run` | internal/agent/command_dispatch.go:20-46 | a whole command beside any others: everything sent, queued and recorded, by kind of command, the two receipts included, and whether containers are refreshed after it |
| `RunCommand.ReplayIsFaithful` | internal/agent/command_dispatch.go:109-121 | the next delivery of a finished command is answered with the very result that was published |
| `RunCommand.ReplayOfRunning` | internal/agent/command_dispatch.go:120-122 | the next delivery of a command marked running is answered with that and nothing else, unless the receipt is gone |
| `Dispatch.AtMostOnce` | internal/agent/command_dispatch.go:20-97 | over every run of deliveries, retries and restarts, interleaved at the critical sections, a command starts at most once more than its receipt was evicted and its deliveries overlapped, queues at most one result a start, each one its own receipt recorded first |
| `Dispatch.PassesIff` | internal/agent/command_dispatch.go:101-126 | in every reachable state a delivery starts a job if and only if the command is streaming, has no id, or has no receipt under its trimmed id |
| `Dispatch.ReceiptsAreTrue` | internal/agent/command_inbox.go:73-92 | over every run a receipt belongs to a command that was started, and a final one holds a result of this command that ended that way |
| `Dispatch.RunsOnceIff` | internal/agent/command_dispatch.go:20-29 | in a run without evictions and broken deliveries of it, a command starts at most once if and only if none of its deliveries overlapped; each overlap costs one more start |
| `Dispatch.ExecutedOnce` | internal/agent/command_dispatch.go:20-97 | with at most 256 ids in play a command whose deliveries never overlap runs at most once and queues at most one result; and only such a command, if no delivery was broken off |
| `Dispatch.RaceRunsTwice` | internal/agent/command_dispatch.go:21-29 | the bound is met: two deliveries that pass the check before either marks are a run with one overlap and two starts |
| `Dispatch.RetainedReceipt` | internal/agent/command_dispatch.go:105-126 | over every run that does not evict it a settled receipt stays: a final status stays final, and no further run starts |
| `Dispatch.ResultsKeptIff` | internal/agent/command_dispatch.go:82-88 | every start of a command has its result fact queued or on its way, if and only if no restart fell between a start and the queueing |
| `Dispatch.AbandonedForGood` | internal/agent/command_dispatch.go:122-124 | a run cut off by a crash is never run again and its result fact never queued, however often it is delivered |
| `Dispatch.RestartAbandons` | internal/agent/command_dispatch.go:82-86 | a restart leaves exactly the commands with a receipt in that state, and costs exactly their open runs |
| `Config.LoadIsBounded` | internal/config/config.go:71-130 | loaded intervals are in bounds whatever the environment holds: a usable value as written, a smaller positive one raised to the minimum, else the default; the cap at least the base, the jitter cut to 0 to 50 |
| `Config.SelfHealNotFaster` | internal/config/config.go:122-126 | self-healing is no more frequent than the heartbeat, if and only if doubling the heartbeat does not overflow |
| `Reconnect.JitteredBackoff` | internal/agent/runtime.go:191-229 | the result is one the specification allows, with 64-bit wrap-around, for all arguments |
| `Reconnect.Spread` | internal/agent/runtime.go:208-229 | so is the jitter part |
| `Reconnect.ClosedFormIff` | internal/agent/runtime.go:201-207 | the doubling loop equals min(base * 2^step, max) for every step if and only if no doubling lands between 2^62 and the cap |
| `Reconnect.BackoffRange` | internal/agent/runtime.go:208-229 | for sound settings the possible waits are exactly those within the jitter of that delay, cut off at the cap; the 100 ms clamp is out of reach |
| `Reconnect.BackoffOfAny` | internal/agent/runtime.go:191-229 | the same for any arguments: a base that is not positive counts as 1 s, a cap below the base as the base, a negative step as none |
| `Reconnect.WidthBound` | internal/agent/runtime.go:211-214 | the jitter is floor(delay * pct / 100) unless the product overflows, and at most half the delay even then |
| `Reconnect.NeverShortIff` | internal/agent/runtime.go:191-229 | no wait is ever below 125 ms, if and only if no doubling lands between 2^62 and the cap and the cap with its jitter fits 64 bits |
| `Reconnect.OverflowStopsBackingOff` | internal/agent/runtime.go:201-213 | settings that are accepted, and for which the backoff is zero from the third failure on |
| `Reconnect.Run` | internal/agent/runtime.go:99-157 | the gap after every attempt is its length, a wait its failure streak allows, and the delay of the scheduler; without a token there is no attempt |
| `Reconnect.AfterSession` | internal/agent/runtime.go:112-152 | the wait the end of a session calls for, and the failures in a row from there |
| `Reconnect.PaceIsKept` | internal/agent/runtime.go:112-156 | every gap: 5 min, a session of 20 s, 3 s, or the backoff of the failures in a row so far; at least 125 ms |
| `Reconnect.GapIsExact` | internal/agent/runtime.go:99-157 | and nothing is slept beyond that: 5 min after a refusal, nothing after a stable session, 3 s for a pending pairing, else the delay of the streak within its jitter, cut off at the cap |
| `Reconnect.StreakIs` | internal/agent/runtime.go:112-152 | the streak counts the attempts since one that was refused, lasted 20 s, or met a pending pairing |
| `Reconnect.NoBusyLoopIff` | internal/agent/runtime.go:99-157 | over every run any n attempts span at least (n - 1) * 125 ms, if and only if the settings are sound in that sense |
| `Reconnect.NoBusyLoop` | internal/agent/runtime.go:99-157 | the same for everything the configuration can load; a cap up to 146 years is always sound |
| `Reconnect.BacksOff` | internal/agent/runtime.go:139-145 | after n plain failures in a row the next attempt is at least half of min(base * 2^n, max) away |
| `Tail.TailFileLines` | cmd/agent/main.go:379-421 | for every file, chunk size and limit: the last `limit` lines of the whole file after CRLF normalisation |
| `Tail.EnoughNewlines` | cmd/agent/main.go:396-409 | once more newlines than lines wanted are read, what lies before does not matter, not even half a CRLF |
| `Tail.SplitOfUnix` | cmd/agent/main.go:411-412 | normalising and splitting is splitting and taking one carriage return off every ended line |
| `Tail.LinesOfWritten` | cmd/agent/main.go:411-415 | a written log reads back as its lines, whatever mix of line endings, with or without a last newline |
| `Tail.LogLimit` | cmd/agent/main.go:337-377 | a number in range is kept, none or one below 1 means 100, one above 10000 means 10000 |
| `Paths.ResolvesIff` | internal/sandbox/paths.go:32-51 | for an absolute or relative root: accepted if and only if the input leads to the root or below it, component by component, and then it resolves to just that place, below the root only through names |
| `Paths.StaysInSandbox` | internal/sandbox/paths.go:13-51 | with the root as it is set up: what is accepted resolves to the place the input leads to, in `apps` under the data directory, and every input that leads there is accepted |
| `Paths.NormalLeadsSame` | internal/sandbox/paths.go:33-39 | cleaning a relative input does not change where it leads |
| `Paths.AbsoluteIsAccepted` | internal/sandbox/paths.go:36-39 | absolute-style inputs are always accepted |
| `Paths.NameIsAccepted` | internal/sandbox/paths.go:46-48 | any name other than `..` is accepted as itself, `..foo` included |
| `Paths.DetourIsAccepted` | internal/sandbox/paths.go:46-48 | leaving the root and coming back is staying in it |
| `Paths.SiblingIsRejected` | internal/sandbox/paths.go:46-48 | a sibling of the root is accepted exactly when it is the root |
| `Paths.RootIsClean` | internal/sandbox/paths.go:13-30 | the root is the data directory, cleaned, with `apps` below it, and an anchored place |
| `Paths.RelOf` | internal/sandbox/paths.go:42-48 | there is always a relative path, and the prefix check on it asks exactly whether the target is outside |
| `Routes.Router.ConfigureRoute` | internal/router/routes.go:30-62 | the table after a request, by the upsert rule on the normalised route |
| `Routes.Router.UpsertRoute` | internal/router/routes.go:116-138 | appends to a free domain, replaces the first entry of the same container in place, or refuses with the table unchanged |
| `Routes.Router.DeleteRoute` | internal/router/routes.go:64-99 | exactly the matching routes go; a blank domain or no match is an error with the table unchanged |
| `Routes.DomainsStayDistinct` | internal/router/routes.go:116-138 | over any sequence of requests, on any table on which they were so at first, domains stay pairwise distinct ignoring case; and trimmed and in lower case |
| `Routes.ConfigureIsOneDomain` | internal/router/routes.go:116-138 | a grant gives the domain to the request and leaves every other route alone; a refusal changes nothing |
| `Routes.RefusedIff` | internal/router/routes.go:124-134 | a request is refused exactly when the domain belongs to a container that shares neither id nor name |
| `Routes.GrantedIff` | internal/router/routes.go:116-138 | a request for an owned domain is granted if and only if its container has the name of the owner, case aside, or an id that is not blank and is the same; then the domain is the request's, otherwise nothing changes |
| `Routes.DeleteIsOneDomain` | internal/router/routes.go:84-93 | on any table a deletion takes that domain away, white space and case aside, and no other |
| `Routes.HandoverWithinContainer` | internal/router/routes.go:121-136 | one request hands a domain over only between routes that share id or name |
| `Routes.OwnersAreAChain` | internal/router/routes.go:113-138 | so the owners of a domain over a whole run form a chain of such pairs |
| `Routes.TakeoverInTwoIff` | internal/router/routes.go:113-138 | a request for an owned domain can be granted in two steps if and only if it can be granted at once or either side carries a container id |
| `Routes.TakeoverIff` | internal/router/routes.go:113-138 | after n other requests a request for an owned domain can be granted: n = 0 if and only if the container is the owner's by id or name, n = 1 if and only if that or either side carries a container id, n >= 2 always |
| `Routes.DeletableIff` | internal/router/routes.go:64-93 | on any table a route can be deleted at all if and only if its domain is not blank |
| `Routes.BlankDomainCannotBeDeleted` | internal/importer/importer.go:154-169 | a request with a domain of white space, which the importer lets through, is granted, and no deletion removes what it adds |
| `Caddyfile.RenderConfig` | internal/router/routes.go:176-193 | the printed text: one block a route, or the default page |
| `Caddyfile.ReadsBackIff` | internal/router/routes.go:184-191 | to a reader that takes literal words only, the printed configuration says exactly the routes, in order, if and only if domains are words, targets have no white space, and neither has a character with a meaning of its own |
| `Caddyfile.EmptyReadsBack` | internal/router/routes.go:178-183 | the default page reads as a site on the given port that answers with its message and proxies nothing |
| `Caddyfile.ItoaRoundTrip` | internal/router/routes.go:189 | a printed port reads back, negative ones too |
| `EnvFile.ReadEnvFile` | internal/agent/deploy.go:394-416 | the settings of a file: later lines win; blank lines, comments and lines without a key are skipped |
| `EnvFile.ParseLineIff` | internal/agent/deploy.go:400-414 | what a line says: the first equals sign ends the key, white space around key and value goes, and neither comments nor blank keys count |
| `EnvFile.LastLineWins` | internal/agent/deploy.go:400-414 | the last line that gives a key a value decides |
| `EnvFile.Override` | internal/agent/deploy.go:371-376 | dashboard values win, in whatever order the map is walked |
| `EnvFile.SyncProjectEnvFile` | internal/agent/deploy.go:360-392 | the merged settings under the header, every key once, in some order; nothing is written when there is nothing to say |
| `EnvFile.Print` | internal/agent/deploy.go:387-391 | so is the printed text |
| `EnvFile.HeaderIs` | internal/agent/deploy.go:387 | the header line, letter by letter |
| `EnvFile.ReadIsWellFormed` | internal/agent/deploy.go:394-416 | everything read from any file is well-formed |
| `EnvFile.ReadsBackIff` | internal/agent/deploy.go:387-416 | the printed settings read back exactly, whatever the key order, if and only if every one is well-formed |
| `EnvFile.SyncSaysBothIff` | internal/agent/deploy.go:360-392 | after a sync the file says the merge exactly, if and only if the dashboard settings are well-formed |
| `EnvFile.SecondSyncIsNoOp` | internal/agent/deploy.go:360-392 | a second sync changes nothing the file says |
| `Stream.Batcher.OnLine` | internal/docker/compose.go:160-171 | the line joins transcript and pending batch, and the fifteenth flushes; nothing lost, repeated or reordered |
| `Stream.Batcher.OnTick` | internal/docker/compose.go:172-173 | a tick flushes |
| `Stream.Batcher.OnClose` | internal/docker/compose.go:161-164 | closing leaves nothing pending |
| `Stream.HandleAll` | internal/docker/compose.go:159-175 | the select loop handles every wake-up in turn |
| `Stream.RunStreamingCommand` | internal/docker/compose.go:138-184 | reports in order are exactly the output lines without the carriage returns at their ends; 1 to 15 a report, none spans a tick, and one that is not full ends at a tick or at the end; so at most one report per 15 lines, tick and end |

## Left out

- The protocol package is not part of this model: envelopes, commands, results and acknowledgements carry only the
  fields used here, its constants are spelled as written in `Outbox`, a new envelope's class is taken not to be the
  signal class, and JSON is taken to read back what it wrote.
- Torn and failed writes: a meta write, a one-record append and a rename are each atomic and succeed. A corrupt meta
  file is modelled in `Load` only.
- OutboxQueue.Queue.Enqueue: sequence numbers are unbounded, so the wrap-around of the 64-bit counter is not modelled.
- OutboxQueue.Queue.DueItems: sorting is by a function that picks minima, not by the library's sort.
- OutboxQueue.Queue.Load: a stream id is whatever a new queue was given; its random choice, and what the server makes
  of a stream that starts over, are not modelled.
- Delivery.AtLeastOnce: the server is assumed to acknowledge only a prefix it has received without a gap, and the run
  to have no crash of the kind `Delivery.CarelessCrashLoses` is about; coalescing, which no sender of facts uses, is
  left to `Coalesce`.
- AckState.Runtime.SendSnapshot: the snapshot gate and the enqueue behind it are one critical section here;
  `Delivery.AtMostOneSnapshot` and `Delivery.GateRaceQueuesTwo` take them apart.
- Dispatch.AtMostOnce: inbox writes succeed.
- RunCommand.Dispatcher.Run: execution is its outcome, and the container refresh after it is a flag; a failed socket
  write of a signal is ignored, as in the code.
- AckState.SelfHealIsSafe: one self-heal loop runs at a time; applying an acknowledgement and noting it are one step,
  and so are the reset and its stamp, and the readings of one check.
- Flush.FirstAttemptsInOrder: clock readings are positive and do not decrease within a process, one flush loop runs
  at a time, and acknowledgements stay below the counter.
- Flush.SentWithinRounds: no send fails in the run, and ticks are punctual.
- Inbox.InboxRefinesLog: update times do not decrease.
- Reconnect.NoBusyLoop: parsing of duration strings is not modelled, and a process is taken to keep its clock.
- Paths.ResolvesIff: lexical; symbolic links are not followed. `Clean`, `Join` and `Rel` are modelled component by
  component.
- Routes.DomainsStayDistinct: case folding is ASCII. Failures of the proxy after the table has been persisted are not
  modelled.
- Caddyfile.ReadsBackIff: the reader knows the two kinds of site that are printed, and turns down every word with a
  brace, quote, comment sign, backslash, comma or dollar sign in it, whatever the proxy might make of it.
- Containers.Deltas.PublishAllContainerStatuses: one caller at a time; listing containers is an input.
- Containers.Deltas.PublishContainerDelta: a delta is the container it was made from; that its fields go out without
  the white space around them is not modelled.
- Containers.CacheStaysTruthful: says what was handed to the socket, not what reached the dashboard.
- EnvFile.SyncProjectEnvFile: reading the dashboard's JSON file and counting overrides for the log are not modelled.
- Stream.RunStreamingCommand: scanner lines over the limit and the process itself are not modelled; wake-ups arrive in
  some order, each handled before the next.
- Tail.TailFileLines: the file does not change while it is read, and reads succeed; lines are bytes.
- Heartbeats, pings, dialling, pairing, host metrics, logging, the command line, and everything that runs docker, git,
  ssh, systemctl, firewalls, terminals or updates.
- Compose cleaning by regular expressions, byte-size and disk-usage parsing, slugs and image names: library-bound or
  easy.
