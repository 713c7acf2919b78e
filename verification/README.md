# A verified model of walr-queue

This project models the durable message queue walr-queue in Dafny 4.11 and proves what its engine, its write-ahead log,
its timer wheel and its replication layer keep true over whole runs. `dafny verify dfyconfig.toml` checks everything.

## What is modelled

| files | part of the system |
|---|---|
| `TimerWheel.dfy` | the hashed timer wheel of leases |
| `SingleQueue.dfy` | one named queue: ready deque, delay buckets, far-future list, tombstones |
| `Framing.dfy`, `WalCodec.dfy` | the log format, its two readers, torn tails |
| `Recovery.dfy`, `WalWriter.dfy` | replay of the two segments, the group-commit writer, flip-flop compaction |
| `EngineSpec.dfy`, `QueueEngine.dfy` | the engine: push, push_batch, poll, ack, ack_batch, page-in, compaction; as values and in place |
| `EngineInv.dfy`, `EngineBook.dfy`, `EngineSteps.dfy` | the invariant of a shard, of all shards with the log, and every step that keeps it |
| `Lifecycle.dfy`, `EngineLife.dfy`, `EngineRuns.dfy` | the life of one message, and that every run keeps every message to it |
| `EngineTheorems.dfy`, `EngineFifo.dfy`, `EngineSpillFifo.dfy`, `EnginePrompt.dfy`, `EnginePunctual.dfy`, `EngineAnswers.dfy`, `EngineContents.dfy`, `EngineBounds.dfy` | what follows for runs |
| `EngineCompaction.dfy`, `EngineNoLoss.dfy`, `EngineKept.dfy`, `EngineLoss.dfy`, `EngineReached.dfy` | when the log is compacted, what it holds, which messages a run keeps, and which polls bring spilled ones back |
| `EngineOpen.dfy`, `EngineRebuilt.dfy`, `EngineRestart.dfy`, `EngineRevived.dfy` | what a restart rebuilds from a log, and from the log of any run |
| `Replication.dfy`, `RaftNode.dfy` | commands applied by replicas, snapshots, promotion, majorities, the leader's log |

Objects that the code updates in place are classes whose methods are proved to perform functions on values; the theorems
are about those functions. A run is any sequence of calls from an empty engine. The engine proofs go in three layers: a
*book* says for each message where it is hot and in which shards it is marked as seen or done, and what each log record
may say about it; every elementary step keeps the book in order; and every step moves each message along its *life*
(unseen, cold, in a queue, on lease, gone). The results about acks, delivery counts and leases are then facts about lives.

Parameters of the model: the clock at each call, fresh receipts, the order in which hash maps are iterated (the drain order
of due buckets and the order of survivors), the hash behind `shard_idx`, and for replication what the network does with
each request and the acks an engine accepts. Assumptions of the run theorems: each id is pushed to one queue, and the
lists the hash maps yield are lists of their contents. Further assumptions (monotone clock, delays up to 300 s, leases of at
least a second) appear in the theorems that need them.

## Where the code does not do what one would expect

- A delay above 300 s can lose an accepted message (`EngineLoss.LongDelayLost`); `EngineKept.KeptIff` says exactly when
  one is lost.
- The disk footprint is not bounded by two segments: a push or an ack logs its record before the check for compaction, so
  the page-in position is never at the end then, and only a batch that logs nothing can compact
  (`EngineCompaction.CompactsIff`, `EngineCompaction.LogOnlyGrows`).
- An acknowledged message can come back after a restart (`EngineRevived.RepushRevives`,
  `EngineRevived.DeadLetterRevives`); `EngineRestart.ReturnsIff` says exactly when.
- A record above 1 MiB stops page-in for good (`WalCodec.WalScanCompleteIff`, `EngineReached.ReachedIff`).
- Reopening a segment with a torn record at its end spoils what is appended (`WalCodec.WalAppendsReadBackIff`), and a crash
  leaves one exactly when it cuts inside a record (`WalCodec.CutSpoilsIff`).
- After a crash in the middle of a compaction, acks go to the segment replayed first (`Recovery.AckHoldsIff`), so one can be
  answered and forgotten (`WalWriter.AckForgotten`).
- A compaction into a segment that such a crash left filled appends to it, and active_bytes is then too low
  (`WalWriter.CompactCountsIff`).
- A lease of zero seconds is missed by the next check (`Wheels.ZeroTimeoutMissed`).
- A repeated push makes the counter of messages in RAM too high after a restart (`EngineOpen.OpenCountsExactlyIff`,
  `EngineRestart.RepeatedPushMiscounts`).
- A push after an ack of the same id breaks catch-up and promotion (`Replication.SnapshotDiverges`,
  `Replication.PromotionIff`), and an ack under another shard breaks promotion (`Replication.PromotionDrops`).
- A batch of acks can leave leader and followers with different messages (`RaftNodes.RefusedAckDiverges`,
  `RaftNodes.DeadLetterAckDiverges`); `RaftNodes.AckBatchAgreesIff` says exactly when it does not.
- The log layout in the README of the repository (magic bytes 1 and 2, an 8-byte time, no payload length) is not the one
  the code writes; the model follows the code.

## Model

| member | source | states |
|---|---|---|
| `EngineTheorems.EveryRunOnePlace` | walrq/src/engine/queue.rs:325-542 | After every run each hot message is hot in one shard only and there either has exactly one entry in its own queue or exactly one lease, and `total_messages_in_ram` is the number of hot messages. |
| `EngineTheorems.NothingAfterAck` | walrq/src/engine/queue.rs:668-735 | Once an ack of a message returned true nothing happens to that id any more in the run: no poll of any queue returns it, no ack of it succeeds and no push of it is accepted, although page-in rescans old Push records. |
| `EngineTheorems.AckUnderLastReceipt` | walrq/src/engine/queue.rs:674-680 | An ack succeeds only under the receipt of the last hand-out of the message. |
| `EngineTheorems.StoredFirst` | walrq/src/engine/queue.rs:334-337 | An id is accepted at most once per run, before any other event of it. |
| `EngineTheorems.DeliveryBound` | walrq/src/engine/queue.rs:447-482 | In every run a message is handed out at most max(1, max_delivery_count) times under its own queue name and at most once under each added ".dlq" level. |
| `EngineTheorems.DeliveryCount` | walrq/src/engine/queue.rs:519-539 | The delivery count a poll reports is the number of hand-outs of that message so far, across all its queue names. |
| `EngineTheorems.LeaseExclusive` | walrq/src/engine/queue.rs:433-444 | With a clock that does not step back, a message is handed out again only when its previous lease has ended. |
| `EnginePrompt.PromptExpiry` | walrq/src/engine/queue.rs:433-482 | With leases of at least a second, a poll leaves no lease in its shard that has ended by then. |
| `EnginePunctual.NotHandedOutEarly` | walrq/src/engine/queue.rs:326-362 | With a clock that does not step back, no poll of any queue hands out a message before the earliest time a push of it was scheduled for, through delay buckets, spilling, page-in and dead-lettering. |
| `EnginePunctual.NothingDueHidden` | walrq/src/engine/queue.rs:505-516 | After a poll at now, every message still waiting in that queue is in its ready deque or becomes visible after now. |
| `EngineContents.PayloadsKept` | walrq/src/engine/queue.rs:343-362 | If every push of an id carries the same payload, all messages in RAM and all Push records carry the payload of their id after every run, through spilling, page-in, dead-lettering and compaction. |
| `EngineNoLoss.NoLoss` | walrq/src/engine/queue.rs:544-653 | With a clock that does not step back and no delay above 300 s, every accepted message that was not acknowledged is in RAM or has its Push record at or after the page-in position, after every run. |
| `EngineKept.KeptIff` | walrq/src/engine/queue.rs:544-653 | For every run, whatever the delays and the clock: an accepted message is in RAM, on disk or acknowledged if and only if it was not dropped, that is, unless an idle batch at the end of a full segment compacted the log while the message was cold and no single push of it followed. |
| `EngineKept.LosesIff` | walrq/src/engine/queue.rs:767-789 | One call loses a cold message that is on disk if and only if it is an idle batch at the end of a full segment. |
| `EngineKept.KeptStep` | walrq/src/engine/queue.rs:325-735 | Every call keeps a hot message on disk too, loses a cold one only by dropping it, and brings a dropped one back only when it is a single push of it. |
| `EngineKept.NeverDropped` | walrq/src/engine/queue.rs:544-653 | With a clock that does not step back and no delay above 300 s nothing is ever dropped. |
| `EngineKept.SurvivorsCoverIff` | walrq/src/engine/queue.rs:767-783 | When a batch compacts the log, whatever the delays and the clock, the survivors hold a record of an accepted, unacknowledged message if and only if it is not cold; every record is the queue (of its family), payload and due time of a message in RAM, one per id. |
| `EngineKept.SurvivorsCoverAll` | walrq/src/engine/queue.rs:767-783 | With a clock that does not step back and no delay above 300 s the survivors of every compaction hold every accepted, unacknowledged message. |
| `EngineLoss.LongDelayLost` | walrq/src/engine/queue.rs:586-588 | The bound on delays is needed: for every message delayed above 300 s that fits one read, every segment limit, every cap above zero and every poll there is a run at one moment that accepts the message, passes it over in a page-in and truncates it in a compaction, so that it is nowhere although nobody acknowledged it. |
| `EngineLoss.SkimsToEnd` | walrq/src/engine/queue.rs:544-653 | A page-in that finds only far-off records and then one that is due stops at the end of the file, past all of them. |
| `EngineCompaction.CompactsIff` | walrq/src/engine/queue.rs:767-789 | A call compacts the log if and only if it is a batch all of whose pushes were seen before, or all of whose acks are refused, the page-in position is at the end of the file and the segment has reached its limit; no single push and no single ack ever does. |
| `EngineCompaction.LogOnlyGrows` | walrq/src/engine/queue.rs:325-427 | Over any stretch of calls without such a batch the log grows by every record its pushes and accepted acks log, in order, and loses none, however far past its limit the segment is. |
| `EngineCompaction.StepLogs` | walrq/src/engine/queue.rs:325-735 | What one call logs, read off the state before it: a single push always, of a batch the first push of each unseen id, of acks those under a valid receipt, each once. |
| `EngineRestart.ReturnsIff` | walrq/src/engine/queue.rs:261-300 | For every run and every message it accepted: replaying the log that the run left brings an unacknowledged message back if and only if it was not dropped, and an acknowledged one if and only if it is stale: when it was acknowledged some Push record of it lay in another shard, or a single push of it came later, and the log was not compacted since. |
| `EngineRestart.StaleStep` | walrq/src/engine/queue.rs:668-735 | What each call does to whether the log would bring an acknowledged message back. |
| `EngineRestart.ReturnsInFamily` | walrq/src/engine/queue.rs:261-300 | Whatever comes back comes back under a queue of its dead-letter family. |
| `EngineRestart.CrashKeepsIff` | walrq/src/engine/disk_log.rs:408-427 | For every run that ends in a compacting call, whichever segment was active, an accepted, unacknowledged message is recovered from every crash point of the compaction if and only if it was not cold. |
| `EngineRestart.RepeatedPushMiscounts` | walrq/src/engine/queue.rs:273-285 | A run of two equal pushes after which a restart counts two messages in RAM although there is one. |
| `EngineRevived.RepushRevives` | walrq/src/engine/queue.rs:329-336 | For every configuration with room in RAM there is a run in which an acknowledged message is pushed once more and the next restart revives it. |
| `EngineRevived.DeadLetterRevives` | walrq/src/engine/queue.rs:448-469 | With a delivery limit of one and a dead-letter queue in another shard there is a run, its two hand-outs under different receipts, in which a message is acknowledged as a dead letter and the next restart revives it. |
| `EngineReached.ReachedIff` | walrq/src/engine/queue.rs:544-653 | From any moment of a run at which a message is cold and its first Push record is ahead of the page-in position: once it is due within the horizon and more polls of whatever queues have paged in than there are unread records up to its own, it has come into RAM if and only if every unread record up to and including its own is at most 1 MiB. |
| `EngineReached.ColdComesBack` | walrq/src/engine/queue.rs:544-653 | With a clock that does not step back, no delay above 300 s and no unread record above 1 MiB, every cold message comes into RAM once as many polls have paged in as there are unread records. |
| `EngineReached.ReachStep` | walrq/src/engine/queue.rs:544-653 | Every call brings a cold message that is due in or leaves its record ahead of the page-in position, and a poll that pages in moves the position on. |
| `EngineReached.StopsOnly` | walrq/src/engine/queue.rs:549-652 | A page-in does not give up early: it ends with the position wrapped to the start (at the end of the segment or in front of a record too large to read), with the RAM full, or with a cold message brought into the polled queue. |
| `EngineReached.BlockedStep` | walrq/src/engine/disk_log.rs:429-511 | No call gets past a record above 1 MiB: a cold message whose Push records all lie behind it stays cold. |
| `EngineNoLoss.SafePageStep` | walrq/src/engine/queue.rs:549-652 | One turn of the paging loop keeps every cold message ahead of the page-in position or brings it into its home queue. |
| `EngineCompaction.CompactedLog` | walrq/src/engine/queue.rs:767-783 | After such a batch the log is exactly the survivors, the page-in position is at its start, and nothing in RAM has changed. |
| `EngineAnswers.PollAnswers` | walrq/src/engine/queue.rs:484-542 | A poll returns at most max messages, distinct ones, and fewer only when it leaves no ready message in the queue; those that were ready before it come first and in their order; each is on lease until now + visibility, or now + the default timeout when visibility is 0, under its own receipt. |
| `EngineAnswers.ReceiptsDiffer` | walrq/src/engine/queue.rs:519-531 | When receipts are drawn without repetition no two hand-outs of a poll share one. |
| `EngineAnswers.PagesInIff` | walrq/src/engine/queue.rs:492-503 | A poll pages in if and only if its queue does not exist or counts fewer than max(2 * max, 200) ready messages, and then asks for at least 1000 records per read. |
| `EngineAnswers.ReturnedDueAtOnce` | walrq/src/engine/queue.rs:446-482 | A message whose ended lease a poll collects is ready in its queue, or in the ".dlq" queue once it was handed out max_delivery_count times, or the poll hands it out again. |
| `EngineAnswers.EndedComeBack` | walrq/src/engine/queue.rs:433-482 | In every run with leases of at least a second a poll does that to every message of its shard whose lease has ended. |
| `EngineAnswers.NothingLateHidden` | walrq/src/engine/queue.rs:505-516 | With a clock that does not step back, a message still waiting after a poll of its queue, at or after the latest time any push of it was scheduled for, is in the ready deque. |
| `EngineAnswers.NothingDueLeft` | walrq/src/engine/queue.rs:505-516 | So a poll that returns fewer messages than it may leaves none waiting that is due. |
| `EngineAnswers.PushAnswers` | walrq/src/engine/queue.rs:325-362 | A push of a new id goes only to disk if and only if it is delayed by more than 300 s or RAM holds as many messages as the cap allows, and straight to the ready deque when it is not delayed; any other push changes nothing but the log. |
| `EngineAnswers.BatchAnswers` | walrq/src/engine/queue.rs:372-422 | So does each item of a batch, counting the messages its earlier items put into RAM. |
| `EngineAnswers.AckSucceedsIff` | walrq/src/engine/queue.rs:674-680 | An ack succeeds if and only if the message is on lease under that receipt in a queue of the shard of the queue it names. |
| `EngineAnswers.AckLeaves` | walrq/src/engine/queue.rs:678-697 | A successful ack takes exactly that message out of RAM, off its lease and off the counter, marks it in its shard, leaves a tombstone in the named queue if that exists, and keeps every entry of every queue. |
| `EngineSpillFifo.SpilledFirstInFirstOut` | walrq/src/engine/queue.rs:561-605 | Of two spilled messages of one queue, both cold, whose first Push record is one of x, ahead of the page-in position and due from then on, y is handed out only after x has been, whatever page-ins, polls, expiries, acks and pushes happen. |
| `EngineSpillFifo.ShardOrder` | walrq/src/engine/queue.rs:561-571 | Grouping the records of a read by shard keeps, for each shard, exactly its records in the order of the read, by position. |
| `EngineFifo.FirstInFirstOut` | walrq/src/engine/queue.rs:151-187 | Of two undelayed messages that went straight to RAM in one queue, the later is first handed out only after the earlier has been, whatever polls, expiries, acks and pushes happen in between. |
| `EngineFifo.RunQueued` | walrq/src/engine/queue.rs:505-516 | In every run the direct pushes not yet handed out stand in the ready deque in push order, and only the first of them is ever handed out. |
| `EngineFifo.ClaimFront` | walrq/src/engine/queue.rs:507-516 | The claim loop takes exactly the first min(max, length) entries of the ready deque, in order. |
| `EngineBounds.RamWithinCap` | walrq/src/engine/queue.rs:339-422 | A push or batch never takes the number of hot messages past the cap. |
| `EngineBounds.BatchWithinCap` | walrq/src/engine/queue.rs:379-422 | A batch adds at most one hot message per item and stops adding at the cap. |
| `EngineBounds.PageInWithin` | walrq/src/engine/queue.rs:544-634 | One page-in leaves the counter at most max(previous, cap - 1) + max(needed, 1000). |
| `EngineOffsets.ReadsByOffset` | walrq/src/engine/disk_log.rs:429-511 | Reading the encoded segment from the byte offset of the page-in position returns the records the engine model reads and the offset of the next position. |
| `EngineOffsets.EndOfFileIff` | walrq/src/engine/queue.rs:785-789 | The byte offset of the page-in position has reached the length of the encoded log if and only if every record has been read. |
| `EngineOffsets.CompactsByBytes` | walrq/src/engine/queue.rs:767-789 | With an exact active_bytes, the engine compacts exactly when the page-in offset has reached active_bytes and active_bytes the segment limit. |
| `EngineOffsets.ChunkTakesMost` | walrq/src/engine/disk_log.rs:429-511 | One read of a page-in takes all records that are left, or as many as asked for, or as many as fit in 1 MiB. |
| `Lifecycle.FollowsLives` | walrq/src/engine/queue.rs:446-542 | Whatever history follows the life of a message is orderly (stored first, nothing after the ack), numbers its hand-outs 1, 2, 3, ..., respects the delivery limits and, with a monotone clock, has exclusive leases. |
| `EngineRuns.RunLife` | walrq/src/engine/queue.rs:325-735 | Every run keeps every message to its life: unseen, cold, in a queue, on lease, back or dead-lettered when the lease ends, gone after an ack. |
| `EngineRuns.StepSound` | walrq/src/engine/queue.rs:325-735 | One call of any kind keeps the engine invariant and moves each message only as its life allows. |
| `EngineLife.AdmitLife` | walrq/src/engine/queue.rs:334-362 | A first push makes exactly that message cold or waiting in its home queue. |
| `EngineLife.ExpireLife` | walrq/src/engine/queue.rs:433-444 | Collecting takes a message off its lease only when the lease has ended, and touches no other message. |
| `EngineLife.RouteLife` | walrq/src/engine/queue.rs:446-482 | Routing sends a returned message back to its queue, or to the dead-letter queue once it has been handed out max_delivery times, with its count unchanged, and touches no other message. |
| `EngineLife.PageRecordLife` | walrq/src/engine/queue.rs:582-623 | Replaying a log record into RAM brings in a message exactly if it is cold and the record is a push of it due within the horizon. |
| `EngineLife.ClaimLife` | walrq/src/engine/queue.rs:505-542 | A claim hands out only messages waiting in the polled queue, each once, with its count raised by one and a lease until now + timeout. |
| `EngineLife.SettleLife` | walrq/src/engine/queue.rs:674-697 | An ack under a valid receipt finishes exactly the leased message it names. |
| `EngineSteps.AdmitInv` | walrq/src/engine/queue.rs:325-362 | A first push keeps the invariant of the whole engine. |
| `EngineSteps.DuplicateInv` | walrq/src/engine/queue.rs:329-336 | Logging a repeated push keeps the invariant. |
| `EngineSteps.ExpireInv` | walrq/src/engine/queue.rs:433-444 | Collecting expired leases keeps the invariant, their messages being in no shard meanwhile. |
| `EngineSteps.RouteInv` | walrq/src/engine/queue.rs:446-482 | Routing one returned message, across shards when it is dead-lettered, keeps the invariant. |
| `EngineSteps.PageRecordInv` | walrq/src/engine/queue.rs:582-623 | Applying a log record read by page-in keeps the invariant: an old Push never revives a finished or moved message and an old Ack changes nothing. |
| `EngineSteps.PageInInv` | walrq/src/engine/queue.rs:544-653 | A whole page-in terminates and keeps the invariant. |
| `EngineSteps.ClaimInv` | walrq/src/engine/queue.rs:505-542 | Draining, popping and leasing keep the invariant and the set of hot messages. |
| `EngineSteps.SettleInv` | walrq/src/engine/queue.rs:674-697 | An ack keeps the invariant and finishes the message in every queue of its dead-letter family. |
| `EngineSteps.CompactInv` | walrq/src/engine/queue.rs:767-783 | Compaction keeps the invariant, in whatever order the survivors are listed. |
| `EngineSteps.HotOnce` | walrq/src/engine/queue.rs:446-482 | Under the invariant no message is hot in two shards. |
| `Books.BalancedStore` | walrq/src/engine/queue.rs:329-362 | A first push, hot or spilled, keeps marks, hot places and log records in agreement. |
| `Books.BalancedMove` | walrq/src/engine/queue.rs:448-469 | Dead-lettering moves the one hot place of a message a level deeper and leaves every shallower level marked as done. |
| `Books.BalancedSettle` | walrq/src/engine/queue.rs:682-693 | An ack, even under another queue name of the same shard, leaves the message marked in all levels it passed. |
| `Books.BalancedPageIn` | walrq/src/engine/queue.rs:583-611 | A record that is neither hot nor marked in its shard belongs to a cold message in its home queue; bringing it in keeps the agreement. |
| `Books.BalancedCompact` | walrq/src/engine/queue.rs:772-780 | One record per hot message, in the queue where it is hot, agrees with the marks. |
| `ShardInv.EnqueueOnePlace` | walrq/src/engine/queue.rs:353-359 | Filing a message that was not hot gives it exactly one entry. |
| `ShardInv.CollectOnePlace` | walrq/src/engine/queue.rs:434-444 | Ended leases leave their messages without an entry and without a lease, all others as they were. |
| `ShardInv.PopOnePlace` | walrq/src/engine/queue.rs:509-515 | A popped message was waiting in the polled queue and has no entry left. |
| `ShardInv.LeaseOnePlace` | walrq/src/engine/queue.rs:519-531 | A claimed message goes on lease and is in no queue. |
| `ShardInv.SettleOnePlace` | walrq/src/engine/queue.rs:678-690 | An accepted ack removes the lease together with the message. |
| `ShardInv.TombstoneOnePlace` | walrq/src/engine/queue.rs:163-169 | A tombstone for an id that is not hot changes no entry. |
| `EngineOpen.OpenIsReplay` | walrq/src/engine/queue.rs:261-300 | For every log: a restart brings into RAM exactly what replaying the log without the pushes that found the RAM full leaves live, with queue, payload and due time, and the counter exceeds it by the pushes admitted while their message was in RAM. |
| `EngineOpen.OpenWithinLive` | walrq/src/engine/queue.rs:261-300 | RAM then holds only live messages, and a message is in RAM if and only if some push of it since its last Ack found room. |
| `EngineOpen.OpenBringsAll` | walrq/src/engine/queue.rs:261-300 | If the log holds no more Push records than fit in RAM, every live message comes back. |
| `EngineOpen.OpenCountsExactlyIff` | walrq/src/engine/queue.rs:258-300 | After a restart the counter of messages in RAM is exact if and only if no push was admitted while its message was in RAM. |
| `EngineRebuilt.OpenMarks` | walrq/src/engine/queue.rs:261-300 | For every log: after a restart each shard has seen exactly the ids the log pushes to its queues, has marked exactly those it acknowledges there, and has no leases. |
| `EngineRebuilt.OpenFiles` | walrq/src/engine/queue.rs:271-297 | For every log that pushes no id twice to a shard: every message in RAM has exactly one entry, in its own queue, without a tombstone, in the ready deque, its bucket or the far list as its time says; and a queue has an untombstoned entry of an id if and only if a push of it to that queue found room and no later Ack names that queue. |
| `EngineRebuilt.MessageIffEntry` | walrq/src/engine/queue.rs:271-297 | If moreover every Ack names the queue of its push, a message is in RAM if and only if some queue of the shard has an untombstoned entry of it. |
| `QueueEngines.QueueEngine.constructor` | walrq/src/engine/queue.rs:244-313 | An engine on an empty log is the empty engine. |
| `QueueEngines.QueueEngine.Open` | walrq/src/engine/queue.rs:244-313 | The recovery loop computes the replay whose messages, counter, marks and queue entries OpenIsReplay, OpenMarks and OpenFiles state. |
| `QueueEngines.QueueEngine.PushWithUlid` | walrq/src/engine/queue.rs:325-370 | In place: the push step; the check for compaction that ends it never passes. |
| `QueueEngines.QueueEngine.PushMany` | walrq/src/engine/queue.rs:372-427 | In place, with the local counter of the loop: the batch step; returns the ids in order. |
| `QueueEngines.QueueEngine.TakeExpired` | walrq/src/engine/queue.rs:433-444 | The loop over expired leases takes their messages out in order. |
| `QueueEngines.QueueEngine.RouteOne` | walrq/src/engine/queue.rs:447-482 | In place: the routing step. |
| `QueueEngines.QueueEngine.GroupByShard` | walrq/src/engine/queue.rs:561-571 | Groups the records of a read by shard, as ShardOrder describes. |
| `QueueEngines.QueueEngine.ApplyRecords` | walrq/src/engine/queue.rs:573-629 | Applies the groups shard by shard and counts the messages of the target queue. |
| `QueueEngines.QueueEngine.PageInColdSpill` | walrq/src/engine/queue.rs:544-653 | The paging loop terminates and performs the page-in step of ReachedIff and SpilledFirstInFirstOut. |
| `QueueEngines.ClaimReady` | walrq/src/engine/queue.rs:505-516 | The claim loop pops what the claim step claims. |
| `QueueEngines.QueueEngine.LeaseClaimed` | walrq/src/engine/queue.rs:517-539 | Leases the claimed ids in order; reports id, count, receipt and payload of each, and the receipts are those an ack will accept. |
| `QueueEngines.QueueEngine.Poll` | walrq/src/engine/queue.rs:429-542 | In place: the poll step of PollAnswers; the answer lists its hand-outs and every receipt in it is acceptable to a later ack. |
| `QueueEngines.QueueEngine.Ack` | walrq/src/engine/queue.rs:668-697 | In place: the ack step; true exactly when the wheel holds that receipt; the check for compaction that ends it never passes. |
| `QueueEngines.QueueEngine.AckMany` | walrq/src/engine/queue.rs:699-735 | In place: the batch of acks; returns how many messages it removed. |
| `QueueEngines.QueueEngine.Surviving` | walrq/src/engine/queue.rs:772-778 | Lists every hot message of all shards and nothing else, as many records as hot messages. |
| `QueueEngines.QueueEngine.CheckAndTriggerCompaction` | walrq/src/engine/queue.rs:767-783 | Compacts exactly when everything spilled has been read and the segment is large enough. |
| `Queues.RunTimely` | walrq/src/engine/queue.rs:106-187 | Over every run of one queue no id becomes ready before its time (far-future ids at most to the start of their minute), and a drain leaves no live id waiting past its time. |
| `Queues.StepTimely` | walrq/src/engine/queue.rs:106-187 | Each operation of the queue keeps ids filed under their second, or their minute when they came from the far-future list. |
| `Queues.DrainEffect` | walrq/src/engine/queue.rs:106-148 | A drain moves exactly the due buckets to the end of ready, whatever the order of the bucket map, and drops only tombstoned ids. |
| `Queues.TidyInsert` | walrq/src/engine/queue.rs:151-160 | Inserting an id without an entry gives it exactly one and no tombstone. |
| `Queues.TidyMarkDeleted` | walrq/src/engine/queue.rs:163-169 | A tombstone for an absent id disturbs no entry. |
| `Queues.TidyPop` | walrq/src/engine/queue.rs:176-187 | Popping a tidy queue yields the front of the deque and skips nothing, although an emptied deque forgets all tombstones. |
| `Queues.TidyDrain` | walrq/src/engine/queue.rs:106-148 | Draining a tidy queue keeps every entry, the ready ones in front. |
| `Queues.PopsInOrder` | walrq/src/engine/queue.rs:106-187 | Of two ids in one delay bucket, or ready, the earlier is popped first, whatever is inserted, drained or deleted in between and in whatever order due buckets are drained. |
| `Queues.InsertedBehind` | walrq/src/engine/queue.rs:151-160 | An id inserted for the second of one that waits in its bucket comes after it, and so does one inserted due after one that is ready. |
| `SingleQueues.SingleQueue.constructor` | walrq/src/engine/queue.rs:95-103 | A new queue is empty. |
| `SingleQueues.SingleQueue.Insert` | walrq/src/engine/queue.rs:151-160 | In place: the insert step. |
| `SingleQueues.SingleQueue.MarkDeleted` | walrq/src/engine/queue.rs:163-169 | In place: the tombstone step. |
| `SingleQueues.SingleQueue.PopReady` | walrq/src/engine/queue.rs:176-187 | The pop loop returns the first entry without a tombstone. |
| `SingleQueues.SingleQueue.PromoteFar` | walrq/src/engine/queue.rs:111-127 | Moves far-future items entering the horizon to the bucket of their minute. |
| `SingleQueues.SingleQueue.MatureBucket` | walrq/src/engine/queue.rs:137-145 | Appends one due bucket to ready without its tombstoned ids. |
| `SingleQueues.SingleQueue.AdvanceAndDrain` | walrq/src/engine/queue.rs:106-148 | Performs a drain in some order of the due buckets. |
| `Wheels.WheelIsLeaseMap` | walrq/src/engine/timer_wheel.rs:20-107 | Over every run of inserts, removals and checks the wheel answers exactly as a map of leases does, for any gaps between checks and a clock that steps back. |
| `Wheels.StepRefines` | walrq/src/engine/timer_wheel.rs:30-107 | Each operation of the wheel refines the same operation on a map of leases. |
| `Wheels.CollectTakesReached` | walrq/src/engine/timer_wheel.rs:49-107 | A check returns each expired lease whose slot it visits once and keeps all others. |
| `Wheels.CollectExactIff` | walrq/src/engine/timer_wheel.rs:49-107 | A check returns exactly the leases with expire_at <= now if and only if it visits the slot of each of them, which depends on expire_at, the last check, now and the size only. |
| `Wheels.ZeroTimeoutMissed` | walrq/src/engine/timer_wheel.rs:62-64 | A zero-second lease taken out at the time of the last check is collected by a later check if and only if that comes a whole turn of the wheel later. |
| `Wheels.ConsistentInsert` | walrq/src/engine/timer_wheel.rs:30-34 | Inserting an id without a lease adds exactly that lease; slots and index stay in agreement. |
| `Wheels.ConsistentRemove` | walrq/src/engine/timer_wheel.rs:36-47 | Removal under a valid receipt removes exactly that lease from slot and index. |
| `Wheels.ConsistentCollect` | walrq/src/engine/timer_wheel.rs:49-107 | A check returns distinct leases of the wheel that have ended and keeps the others. |
| `Wheels.FreshCollect` | walrq/src/engine/timer_wheel.rs:49-107 | When every lease ends after the last check, the next check leaves none that has ended. |
| `TimerWheels.TimerWheel.constructor` | walrq/src/engine/timer_wheel.rs:20-28 | A new wheel has at least 60 slots and no lease. |
| `TimerWheels.TimerWheel.Insert` | walrq/src/engine/timer_wheel.rs:30-34 | In place: the insert step. |
| `TimerWheels.TimerWheel.RemoveIfValid` | walrq/src/engine/timer_wheel.rs:36-47 | In place: the removal step, with the swap; true exactly when the receipt is the one on record. |
| `TimerWheels.TimerWheel.DrainSlot` | walrq/src/engine/timer_wheel.rs:71-80 | Splits one slot into expired and remaining items and takes the expired ones off the index. |
| `TimerWheels.TimerWheel.SweepAll` | walrq/src/engine/timer_wheel.rs:65-81 | Sweeps every slot. |
| `TimerWheels.TimerWheel.SweepElapsed` | walrq/src/engine/timer_wheel.rs:82-103 | Sweeps the slots of the elapsed seconds only. |
| `TimerWheels.TimerWheel.CollectExpired` | walrq/src/engine/timer_wheel.rs:49-107 | In place: the check. |
| `WalCodec.WalTornTail` | walrq/src/engine/disk_log.rs:270-356 | Decoding any byte prefix of an encoded log yields exactly the records wholly contained in it; the whole log decodes to itself. |
| `WalCodec.WalScanCompleteIff` | walrq/src/engine/disk_log.rs:429-511 | Reading the log in chunks from offset 0 finds all its records if and only if each is at most 1 MiB; a larger one hides all that follow. |
| `WalCodec.WalAppendsReadBackIff` | walrq/src/engine/disk_log.rs:184-189 | Reopening appends to a segment as it is: what is appended is read back if and only if the crash left no torn record at its end. |
| `WalCodec.CutSpoilsIff` | walrq/src/engine/disk_log.rs:184-189 | A crash that cuts a log after byte k spoils what is appended later if and only if it cuts inside a record. |
| `WalCodec.PushBytes` | walrq/src/engine/disk_log.rs:270-281 | The bytes of a Push: flag 0, id, seconds since 1577836800, queue number and payload length big-endian in 16, 4, 2 and 4 bytes, and the payload from byte 27 on. |
| `WalCodec.AckBytes` | walrq/src/engine/disk_log.rs:283-288 | The bytes of an Ack: flag 1, the id in 16 bytes and the queue number in 2. |
| `WalCodec.DecodeWhole` | walrq/src/engine/disk_log.rs:270-288 | Decoding an encoded record in front of anything gives it back with its size. |
| `WalCodec.DecodePrefix` | walrq/src/engine/disk_log.rs:298-352 | On a prefix a record is found exactly when the prefix covers it. |
| `WalCodec.NextRecord` | walrq/src/engine/disk_log.rs:302-351 | The field-by-field reader with its three length checks computes the record decoder. |
| `Framing.TornTail` | walrq/src/engine/disk_log.rs:290-356 | Torn tails for any self-delimiting record format. |
| `Framing.TornLeft` | walrq/src/engine/disk_log.rs:290-356 | A byte prefix of an encoded log leaves unread exactly what follows its last whole record. |
| `Framing.ReadSegment` | walrq/src/engine/disk_log.rs:290-356 | The recovery loop appends the records of one segment to those read before. |
| `Framing.ReadWindow` | walrq/src/engine/disk_log.rs:444-510 | The loop over one window of the file returns the records it holds whole, at most max_entries, and the bytes they take. |
| `Framing.ReadChunk` | walrq/src/engine/disk_log.rs:429-511 | One chunked read, including an offset at or past the end of the file. |
| `Framing.ReadAdvances` | walrq/src/engine/disk_log.rs:429-511 | A read that starts at a record boundary returns the next records and stops at a boundary. |
| `Framing.ScanCompleteIff` | walrq/src/engine/disk_log.rs:429-511 | For any format, chunked reading equals whole-file decoding if and only if every record fits in one read. |
| `Framing.ReadTakesMost` | walrq/src/engine/disk_log.rs:444-510 | A read stops only at the end, at max_entries, or in front of a record that does not fit in the rest of the window. |
| `Framing.ReadOfEncoded` | walrq/src/engine/disk_log.rs:429-511 | A read at the byte offset of record i returns the records from i on that fit, and the byte offset after them. |
| `Recovery.CompactionCrashSafeIff` | walrq/src/engine/disk_log.rs:408-427 | Compaction recovers the same messages at every crash point, whichever segment was active, if and only if the survivors are the live messages of the old segment. |
| `Recovery.PartialCopyHarmless` | walrq/src/engine/disk_log.rs:417-420 | Any prefix of the survivors, replayed before or after the old log, changes nothing. |
| `Recovery.AckHoldsIff` | walrq/src/engine/disk_log.rs:161-172 | An acknowledgement holds across the next restart if and only if it was appended to the segment replayed last or that segment does not bring the message back. |
| `Recovery.LiveIff` | walrq/src/engine/queue.rs:261-300 | Replay leaves a message live if and only if one of its Push records is followed by no Ack of it in the same shard, and then as one of those records says. |
| `Recovery.ReplayLocal` | walrq/src/engine/queue.rs:261-300 | The last record about a message decides whether it is live; one without records keeps what it had. |
| `WalWriter.GroupCommit` | walrq/src/engine/disk_log.rs:191-253 | However the commands arrive, in any sequence of bursts: when the writer answers a command, the bytes written are, in order, the encodings of at least all commands sent up to and including it; when it goes back to sleep everyone who waits has been answered and the bytes written are the log of all records sent. |
| `WalWriter.AckForgotten` | walrq/src/engine/disk_log.rs:161-172 | Every compaction out of segment A has a crash point after which the acknowledgement of a copied message is written and answered and yet forgotten by the next restart. |
| `WalWriter.AlwaysCounted` | walrq/src/engine/disk_log.rs:238-247 | Over every sequence of bursts and compactions of a log opened with at most one segment filled, active_bytes is the length of the active segment and the other one is empty. |
| `WalWriter.CompactCountsIff` | walrq/src/engine/disk_log.rs:408-427 | active_bytes is exact after a compaction if and only if the other segment was empty before it. |
| `WalWriter.TurnTakes` | walrq/src/engine/disk_log.rs:191-236 | A turn of the writer takes everything in the channel, or stops with the first command after its first one that takes the buffer above 128 KiB. |
| `WalWriter.ServeCoherent` | walrq/src/engine/disk_log.rs:191-253 | Over any commands and any state of the channel the writer keeps buffer, written bytes and waiters in step. |
| `WalWriter.ServePerforms` | walrq/src/engine/disk_log.rs:238-247 | Serving commands only appends to the active segment. |
| `WalWriter.CompactEffect` | walrq/src/engine/disk_log.rs:408-427 | Compaction leaves the survivors in the other segment and an empty old one; a crash at any byte on the way leaves one of the crash points of CompactionCrashSafeIff. |
| `DiskLogs.DiskLog.constructor` | walrq/src/engine/disk_log.rs:168-189 | Opening makes B active only when A is empty and B is not. |
| `DiskLogs.DiskLog.Accept` | walrq/src/engine/disk_log.rs:192-210 | In place: registers the queue, encodes into the buffer and notes who waits. |
| `DiskLogs.DiskLog.Commit` | walrq/src/engine/disk_log.rs:238-252 | In place: writes the buffer, adds its length to active_bytes, then answers all waiters in order. |
| `DiskLogs.DiskLog.Serve` | walrq/src/engine/disk_log.rs:191-253 | The writer loop with its coalescing inner loop performs the turns of the model. |
| `DiskLogs.DiskLog.FlipFlopCompaction` | walrq/src/engine/disk_log.rs:408-427 | In place: flush, flip, copy, flush, truncate. |
| `Replication.SnapshotConvergesIff` | walrq/src/cluster/raft.rs:222-272 | A cleared follower that receives the leader's live messages and then the whole suffix ends with the leader's live messages if and only if the suffix acknowledges none of them and acknowledges, after a push, every other message it pushes. |
| `Replication.SnapshotConverges` | walrq/src/cluster/raft.rs:222-272 | It converges whenever no push of a message follows an ack of it in the log. |
| `Replication.SnapshotDiverges` | walrq/src/cluster/raft.rs:681-684 | A message whose ack is logged, in a batch with an accepted one, before it is pushed is live on the leader and lost by the follower. |
| `Replication.InstallGives` | walrq/src/cluster/raft.rs:634-642 | Installing a snapshot on a cleared engine leaves exactly its messages, in whatever order they are listed. |
| `Replication.PromotionIff` | walrq/src/cluster/raft.rs:738-757 | Rebuilding with a set of acknowledged ids gives the live messages of in-order replay if and only if, for every pushed message, an ack naming its id occurs exactly when an ack of it follows a push of it. |
| `Replication.PromotionPreserves` | walrq/src/cluster/raft.rs:738-757 | It does when every id stays in one shard and no push of a message follows an ack of it. |
| `Replication.PromotionDrops` | walrq/src/cluster/raft.rs:716-725 | An ack that names the id under a queue of another shard makes promotion drop a message that replay keeps. |
| `RaftNodes.PromotionOnSnapshot` | walrq/src/cluster/raft.rs:715-736 | Re-pushing onto an engine that applied its log changes nothing, whatever it applied before. |
| `Replication.FreshFate` | walrq/src/cluster/raft.rs:670-691 | What a log does to a message not seen before: its first push counts and it stays unless an ack follows a push. |
| `Replication.SeenFate` | walrq/src/cluster/raft.rs:670-691 | What a log does to a message seen before: pushes do nothing and any ack removes it. |
| `Replication.AddPeerGood` | walrq/src/cluster/raft.rs:291-296 | Adding a peer keeps the list free of duplicates and of the node itself. |
| `Replication.RemovePeerGood` | walrq/src/cluster/raft.rs:298-303 | So does removing one, which takes out exactly that peer. |
| `Replication.CollectAcks` | walrq/src/cluster/raft.rs:457-470 | The loop with its early exit reaches the quorum exactly when the leader and the successful replies do. |
| `Replication.OkMeansMajority` | walrq/src/cluster/raft.rs:424-472 | When the replies reach the quorum, the leader and the distinct peers that answered success are a majority of all nodes. |
| `Replication.EveryMajorityStores` | walrq/src/cluster/raft.rs:424-472 | Over the engines of the nodes: if the leader and every peer that answered success applied the batch, every majority of the nodes contains one whose engine knows every pushed message and holds those it had not seen before, with the payload of the first push. |
| `Replication.MajoritiesMeet` | walrq/src/cluster/raft.rs:426-426 | Any two sets of at least n/2 + 1 of n nodes share a node. |
| `LeaderLogs.RunShape` | walrq/src/cluster/raft.rs:397-489 | Over every sequence of proposals, with or without quorum, and compactions from an empty log, entry i has index snapshot_index + 1 + i and snapshot_index <= commit_index <= last index. |
| `LeaderLogs.RunHolds` | walrq/src/cluster/raft.rs:397-489 | Over every such sequence commit_index is the number of commands proposed up to the last proposal that reached its quorum, the entries are all commands after the snapshot with their own terms and indexes, and the snapshot term is that of the last command in the snapshot. |
| `LeaderLogs.ProposeCompactsIff` | walrq/src/cluster/raft.rs:472-489 | A successful proposal whose last index is a multiple of a positive threshold empties the log into the snapshot, unless the log holds one entry only; any other proposal keeps all entries. |
| `LeaderLogs.IndexesCount` | walrq/src/cluster/raft.rs:397-422 | No index is used twice: the next index is one more than the number of commands ever proposed. |
| `LeaderLogs.CompactShape` | walrq/src/cluster/raft.rs:205-220 | Compaction drops exactly the committed entries, and does nothing when only the first entry is committed. |
| `LeaderLogs.ProposeShape` | walrq/src/cluster/raft.rs:397-489 | A proposal keeps the shape of the log, also when the quorum fails after its entries were logged. |
| `RaftNodes.RaftNode.constructor` | walrq/src/cluster/raft.rs:73-90 | A new node is a follower with an empty log. |
| `RaftNodes.RaftNode.Join` | walrq/src/cluster/raft.rs:291-296 | In place: adding a peer. |
| `RaftNodes.RaftNode.Leave` | walrq/src/cluster/raft.rs:298-303 | In place: removing a peer. |
| `RaftNodes.RaftNode.AppendCommands` | walrq/src/cluster/raft.rs:397-422 | Logs the commands with consecutive indexes after the last entry or the snapshot. |
| `RaftNodes.RaftNode.CompactLogSnapshot` | walrq/src/cluster/raft.rs:205-220 | In place, searching backwards: the compaction of the log. |
| `RaftNodes.RaftNode.ProposePushBatch` | walrq/src/cluster/raft.rs:353-492 | Not a leader, or no items: nothing changes. Otherwise the entries are logged and sent to the peers, each of which applies them if it gets them and its term allows; without a quorum of answers only the log grows; with one the batch is committed and applied, and every majority of the nodes contains one whose engine stores it. |
| `RaftNodes.Broadcast` | walrq/src/cluster/raft.rs:430-455 | Sends the entries to every peer, over links that may lose the request or the answer; exactly the peers that get them in a term they accept apply the commands, and exactly those of them that are heard answer success. |
| `RaftNodes.RaftNode.ProposeAckBatch` | walrq/src/cluster/raft.rs:494-598 | Returns the number of messages the engine acknowledged; when it is zero nothing changes anywhere, else all items are logged, sent to the peers, which apply them, and committed whatever the peers answer. |
| `RaftNodes.AckBatchAgreesIff` | walrq/src/cluster/raft.rs:505-518 | A leader and a follower with the same live messages have the same after a batch of acks if and only if none was accepted, or every live message it names is acknowledged on the leader exactly when the follower holds it in the shard of the queue. |
| `RaftNodes.RefusedAckDiverges` | walrq/src/cluster/raft.rs:511-518 | A refused ack logged along with an accepted one makes the follower drop a message that the leader keeps. |
| `RaftNodes.DeadLetterAckDiverges` | walrq/src/cluster/raft.rs:681-683 | The ack of a message that the leader dead-lettered into another shard leaves the copy of the follower live. |
| `RaftNodes.RaftNode.HandleAppendEntries` | walrq/src/cluster/raft.rs:652-704 | False, with nothing changed, for an older term; true only after every entry was applied in order and logged, with the log trimmed to the threshold and the snapshot index and term those of the last entry dropped. |
| `RaftNodes.FollowerKeeps` | walrq/src/cluster/raft.rs:685-702 | Whatever a follower receives, its log is the end of it, at most two thresholds of entries and at least one once it dropped any, and the snapshot index and term are those of the last entry dropped. |
| `RaftNodes.AfterIsSuffix` | walrq/src/cluster/raft.rs:643-648 | The entries kept after a snapshot are the end of the log from that index on. |
| `RaftNodes.RaftNode.HandleInstallSnapshot` | walrq/src/cluster/raft.rs:620-650 | Clears the engine, applies the items, and keeps only the entries after the snapshot. |
| `RaftNodes.RaftNode.HandleVote` | walrq/src/cluster/raft.rs:605-618 | Grants a vote exactly to a newer term and steps down. |
| `RaftNodes.RaftNode.RecoverAsNewLeader` | walrq/src/cluster/raft.rs:706-758 | Both branches: rebuild from an empty engine, or re-push what follows the snapshot. |

## Left out

- Runs that go on after a restart: `EngineRestart` covers what a restart brings back of any run, but runs start from an empty engine.
- The queue entries that a restart makes of repeated Push records.
- force_compaction, clear_for_raft_recovery and ack_follower as steps of engine runs; `Replication` covers the last two on live messages.
- The durability of the queue manifest file and more than 65536 queue names; a name keeps its number (`WalWriter.ServePerforms`).
- zstd decompression, which the encoder never asks for: an arbitrary function in the decoder.
- Parsing and printing of ULIDs, UUIDs and postcard bytes: ids and commands are opaque.
- The FNV hash itself: an arbitrary function of the queue name.
- Interleavings inside a call: each public call is one step.
- 64-bit overflow of times, counters and offsets.
- Raft beyond what is listed: elections, log matching and leader completeness, which the code does not implement, and majorities for acks, which it does not check.
- Due times in replication: replicas agree on live messages, queues and payloads.
- Entries logged by a proposal whose quorum failed: the log shape covers them, the replay results speak of the log that was applied.
- The engine holds its queues and wheels as values, not as SingleQueue and TimerWheel objects; aliasing between them is not modelled.
- TCP server, client, connection pool, discovery, metrics, configuration and signal handling.
