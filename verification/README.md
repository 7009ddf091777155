# The ingestor's block-to-stream pipeline, in Dafny

The Nox ingestor reads event logs from a chain, groups them into one message per transaction, publishes
the messages to a NATS JetStream stream and remembers in a state file how far it has come. It promises
that no event is lost and that reading blocks again does no harm. This project models that pipeline and
proves the promise, and says exactly where it does not hold.

## How the project is laid out

| files | what they hold |
|---|---|
| `bisection.dfy`, `bisection_laws.dfy` | the work-stack loop that halves rejected log ranges, its recursive specification, tiling, cost under a log cap |
| `sorting.dfy`, `grouping.dfy`, `grouping_laws.dfy` | sorting by (block, log index), the hash map that groups events, conservation and round trip |
| `extraction.dfy`, `delivery.dfy`, `reader.dfy` | from logs to messages; batches as a function of the blocks they cover; what they hold in terms of the logs' fields; the block reader |
| `events.dfy` | the message and its checksum, the deduplication id |
| `protocol.dfy` | one ingestor process that can be killed at every step, its connection, the stream and the state file, as a labelled state machine |
| `safety.dfy`, `guarantees.dfy`, `stream.dfy`, `recovery.dfy` | the invariant, and what follows from it for every reachable state and every run |
| `order.dfy`, `run_order.dfy`, `run_stream.dfy`, `order_exact.dfy` | the order in which messages enter the stream, within one run and over all, and exactly when it is canonical |
| `runs.dfy`, `progress.dfy`, `restarts.dfy`, `losses.dfy` | putting runs together; exactly when a run gets on, when a restart can go back, and which messages are lost for good |
| `buffer.dfy`, `publisher.dfy`, `storage.dfy`, `application.dfy` | the mutable objects of the source as classes, with their loops |
| `turns.dfy` | a run as a chain of turns of the main loop: the branch each has taken and what it has done |
| `world.dfy`, `supervisor.dfy` | what lies outside the process, and whole histories of processes and power losses |
| `pem.dfy`, `pem_laws.dfy`, `pem_spelling.dfy` | the PEM normalizer, its normal form, and exactly which strings it turns into a text |
| `wrappers.dfy`, `spans.dfy` | optional values and results; concatenation over a span of blocks |

The layers meet in `Supervising.Operate`. The classes carry, as ghost state in `Outside.World`, the state
of the protocol that they have reached, and can change it only by enabled protocol steps; `Valid` equates
their fields with it. So what is proved of every reachable protocol state (with a kill possible at every
step) is true of the fields of the running objects and of the records in the state file, and `Operate`
says it outright: after any number of lives with any failures, each version of the state file that could
be read back vouches only for messages that the stream holds, and the stream holds nothing but messages
of the chain, each once.

What the environment decides is written down as it decides it: each answer of the network, each signal that the
loop finds, each dropped wait and each failed file operation (`Outside.Record`, `Storage.Trouble`). Only the
methods that stand for the environment extend these, so the contracts can say what the code makes of every answer:
a publish that was acknowledged is done, one that was refused is buffered, a flush stops exactly at the message
that was refused, a persist fails exactly when an operation of it fails. `Turns` puts the branches together: each
turn of the loop takes the branch that the biased select chooses and does what that branch does, and a life of the
process is a chain of such turns from the state file on (`Running.Application.Run`, `Supervising.Operate`).

Cancellation is modelled as it happens in the biased `select!`. Branches 3 and 4 get their turn only when no
connection change is pending. The batch branch is dropped only where it waits, for room in the buffer or for
an acknowledgement (or before it has read its batch), and what comes next is one of the branches before it.
The handlers of those branches run to their end. `flush_buffer` empties the buffer before its first await, so
the messages of a running flush live only in a local variable; the accounting invariant counts them.

## What is assumed

- The chain is immutable and well formed (`Extraction.WellFormed`): a log is filed under its block, log
  indexes within a block are unique, and a transaction is in one block. A successful fetch returns exactly
  the logs of its range, in any order (`BisectionLaws.Truthful`).
- Hashing is injective, so the checksum is modelled by its argument, the text `chain_id:tx_hash`.
- The stream remembers ids for as long as it matters, and an acknowledgement means that it holds the id.
  A message handed to the network may be stored at any later time, or never, also after the process died.
- Of the JSON codec only that decoding undoes encoding.
- The state file can be read when it is there (a file that cannot is a fresh start, `Storage.StateStore.Load`).
- Block numbers stay below a horizon with `horizon + batch_size` within 64 bits, as the source's additions need.

## What the code does differently from what one may expect

- A fresh start sets the cursor to the initial block before that block has been read. A persist before the
  first batch records it as done, and a restart begins one block later. The crash-safety theorem therefore
  holds strictly above the initial block; `Guarantees.InitialBlockIsCoveredExactlyWhenEmpty` says when it
  extends to the initial block itself, and `Guarantees.PersistBeforeFirstBatch` is the run that shows why.
- Errors of the directory sync are ignored. Without a power loss restarts still never go back, wherever
  processes are killed and whatever syncs fail (`Restarts.RestartsNeverGoBack`). But a process killed between
  rename and directory sync, a restart from the renamed file and then a power loss take the cursor back
  (`Restarts.RestartsCanGoBack`). A power loss does no such harm exactly when the version it brings back is not
  older than the cursor loaded last, or that was the initial block (`Restarts.PowerLossIsHarmlessExactlyWhenMild`),
  and a history of such power losses keeps the loads ascending (`Restarts.MildHistoriesAscend`). Over all
  histories the cursors that restarts load ascend exactly when the configuration cannot leave the initial block
  (`Restarts.RestartsAscendExactly`). A given restart's cursor is never undercut by a later restart exactly when
  it is the initial block or was already durable (`Restarts.LoadedCursorIsKeptExactly`). No message is lost by it.
- `README.md:38` of the repository says that in-flight messages are flushed at shutdown. The code persists
  the cursor and nothing else (`src/application.rs:305-314`): the stream stays as it was and the buffer is
  gone (`Losses.ShutdownOnlyPersists`). The block of an unacknowledged message is read again by the next
  run exactly when it lies above the initial block. A message of the initial block that had not been handed
  to the network, being buffered or not yet read, is lost for good (`Losses.ShutdownLosesBufferedMessage`),
  and nothing else is (`Losses.ShutdownLosesExactly`). `Losses.LostExactly` draws the line in every reachable
  state; a message above the initial block can always still reach the stream.
- With `batch_size` 0 no run ever gets past its start block; `Progress.NextBlockMovesExactly` gives all
  configurations for which that is so.
- After a failed publish the stream need not be in canonical order: `publish` sends at once even when the
  buffer is not empty, and a failed flush still resumes the reader. This needs room for two messages in the
  buffer: with `buffer_capacity` at most 1 the wait for a full buffer keeps the order through every failure
  (`OrderExact.FailuresKeepOrderExactly`). A restart that skips a non-empty initial block breaks the
  order too (`OrderExact.RestartsKeepOrderExactly`). `OrderExact.OrderHoldsExactly` joins the two.

## Model

| member | source | states |
|---|---|---|
| Bisection.Midpoint | src/chain/client.rs:101 | the split point lies in the range, stays within 64 bits, and the left half has the larger share |
| Bisection.SplitLogsOnError | src/chain/client.rs:86-122 | the stack loop computes what the recursive bisection specifies (result, requests, splits) and accepts the very same sub-ranges in the same order; it makes at most 2n - 1 requests for n blocks and never holds more than ceil(log2 n) + 1 ranges |
| BisectionLaws.SuccessTilesTheRange | src/chain/client.rs:95-121 | on success the accepted sub-ranges tile the range without gap or overlap in ascending order, the result is their concatenation, and there is one more of them than splits |
| BisectionLaws.SuccessReturnsTheRange | src/chain/client.rs:82-99 | whatever was rejected on the way, success returns exactly the logs of the range |
| BisectionLaws.SplittingIsInvisible | src/chain/client.rs:99-106 | from a provider that answers in block order, the result equals one unsplit fetch |
| BisectionLaws.TotalWork | src/chain/client.rs:96-120 | for any pattern of errors at most 2n - 1 requests, and exactly 2s + 1 on success with s splits |
| BisectionLaws.CappedCompleteness | src/chain/client.rs:98-117 | under a cap of C logs per answer the call succeeds if and only if every single block holds at most C logs |
| BisectionLaws.TooLargeIsIrreducible | src/chain/client.rs:107-117 | an error of the call is the answer to its last request, which lies in the range, and a too-large one is the answer to a one-block request |
| BisectionLaws.SplitsAnswerRejections | src/chain/client.rs:100-119 | there is one too-large answer for several blocks for each split, and no other error is ever answered by a split |
| BisectionLaws.SplitBound | src/chain/client.rs:100-106 | under a cap the splits number at most ceil(log2 n) * floor(T / (C + 1)) for T logs |
| BisectionLaws.FetchBound | src/chain/client.rs:95-121 | under a cap at most 1 + 2 * ceil(log2 n) * floor(T / (C + 1)) requests |
| BisectionLaws.CeilLog2IsTheLogarithm | src/chain/client.rs:84-85 | the depth used in the bounds is the least k with n <= 2^k |
| Events.DecimalIsInjective | src/events.rs:172-175 | different chain ids have different decimal texts |
| Events.DecimalStandsFor | src/events.rs:173 | the decimal text consists of digits, has no leading zero and stands for the number |
| Events.IdentityTexts | src/events.rs:172-180 | the hashed text is chain id, colon and transaction hash; the subject is base, dot and transaction hash |
| Events.ChecksumIdentifiesTransaction | src/events.rs:172-175 | two messages have one deduplication id if and only if chain id and transaction hash agree |
| Events.SubjectIdentifiesTransaction | src/events.rs:178-180 | on one chain two messages share a subject if and only if they share a deduplication id |
| Sorting.SortIsOrderedPermutation | src/chain/reader.rs:161-162 | the sort by (block, log index) is an ordered permutation |
| Sorting.StrictOrderIsUnique | src/chain/reader.rs:161-162 | one bag of elements has at most one strictly ordered listing |
| Sorting.SortForgetsInputOrder | src/chain/reader.rs:161-162 | with unique keys, permuted inputs sort to the same list |
| Grouping.OneMessagePerTransaction | src/chain/reader.rs:189-213 | grouping yields for each transaction hash one message, holding the transaction's events in order |
| Grouping.GroupIsOrdered | src/chain/reader.rs:215-219 | the messages are strictly ordered by (block, first log index) |
| Grouping.GroupByTransaction | src/chain/reader.rs:185-222 | for every iteration order of the hash map the method returns the same messages, those of the grouping specification |
| GroupingLaws.GroupingConserves | src/chain/reader.rs:185-222 | each event lands in exactly one message, under its own hash, and nothing else does |
| GroupingLaws.GroupingRoundTrip | src/chain/reader.rs:161-222 | flattening the messages gives the sorted events back if and only if each transaction's events are contiguous |
| Extraction.ExtractPermutation | src/chain/reader.rs:153-159 | permuted logs parse to permuted events |
| Extraction.SpanMessages | src/chain/reader.rs:161-165 | grouping the events of a span of blocks is grouping block by block |
| Extraction.BatchIsCanonical | src/chain/reader.rs:145-171 | any permutation of the logs of a span gives the canonical messages of its blocks |
| Extraction.CutsAreInvisible | src/chain/reader.rs:128-172 | the messages of consecutive batches, concatenated, are the canonical messages of the whole range |
| Extraction.BatchSizeIndependence | src/chain/reader.rs:142-171 | two ways of cutting the same blocks into batches give the same messages |
| Extraction.ChecksumsAreUnique | src/events.rs:172-175 | on the whole chain one deduplication id belongs to one message of one block |
| Extraction.BlockMessagesAreDistinct | src/chain/reader.rs:199-213 | within a block ids are distinct, and every message carries its block number and at least one event |
| Delivery.ExtractLists | src/chain/reader.rs:153-159 | the filter stage lists, in order, exactly one entry for each log that the parser accepts and whose metadata is complete, made of the fields of the log and of what the parser returned |
| Delivery.SpanDelivers | src/chain/reader.rs:145-222 | the canonical messages of any span hold the event of each such log in exactly one message, under its hash and block, and nothing else; each carries the chain id and the caller and index of its first event, with events and messages ascending |
| Reader.BlockReader.ReadBatch | src/chain/reader.rs:128-172 | a success holds exactly the canonical messages of start..end with end clamped as in the source: the event of each log there that the parser accepts and whose metadata is complete is in exactly one message, under its transaction and block, and nothing else is; an error comes exactly when the fetch fails and is an answer of the provider within the range; nothing available gives an empty batch |
| Reader.BlockReader.ReadBatchWithRetry | src/chain/reader.rs:98-121 | the batch of the first attempt that does not fail; nothing only if the caller was dropped between two attempts, all of which failed |
| Protocol.ReachableStep | src/application.rs:136-303 | reachability is closed under every enabled step |
| Protocol.InitIsReachable | src/state.rs:83-90 | histories begin with no file and an empty stream |
| Safety.InvStep | src/application.rs:136-314 | every step, kills, power losses, cancellations and late deliveries included, keeps the invariant |
| Safety.ReachableInv | src/application.rs:136-314 | every reachable state satisfies the invariant |
| Guarantees.CrashSafeCursor | src/application.rs:282-291 | every message of every block strictly above the initial block and at most a cursor that can be read back is stored and acknowledged |
| Guarantees.PersistBeforeFirstBatch | src/state.rs:98-105 | a reachable state whose file records the initial block although nothing was acknowledged |
| Guarantees.InitialBlockIsCoveredExactlyWhenEmpty | src/application.rs:368-373 | the guarantee holds from the initial block itself if and only if that block has no message or none is configured |
| Guarantees.NoMessageIsLost | src/nats/publisher.rs:84-118 | each message of each block from the run's start to the next block is acknowledged (and stored), buffered or held by the running flush |
| Guarantees.EmptyBufferMeansStored | src/application.rs:285-290 | with an empty buffer outside a flush every message above the initial block and below the next block is acknowledged and stored |
| Guarantees.TightCursor | src/application.rs:183-187 | outside a handler an empty buffer implies cursor >= next_block - 1, and at every moment the cursor is at most max(next_block - 1, initial_block) and not behind the file |
| Guarantees.DurableCursorNeverDecreases | src/state.rs:158-163 | over every run the durable version of the file never goes back, power losses included |
| Restarts.RestartsNeverGoBack | src/application.rs:359-367 | along every history without a power loss, wherever processes are killed and whatever syncs fail, the cursors that restarts load ascend |
| Restarts.MildHistoriesAscend | src/state.rs:158-163 | the loaded cursors ascend along every history in which each power loss brings back a version not older than the cursor loaded last, unless that was the initial block |
| Restarts.PowerLossIsHarmlessExactlyWhenMild | src/state.rs:158-163 | after a power loss no later restart in any history loads less than the last one did, if and only if the version brought back is not older than that cursor or that cursor is the initial block |
| Restarts.LoadedCursorIsKeptExactly | src/state.rs:158-163 | after a restart no later restart in any history loads a smaller cursor, if and only if the cursor loaded is the initial block or was durable |
| Restarts.RestartsCanGoBack | src/state.rs:158-163 | whenever the cursor can leave the initial block, a reachable state in which a restart loaded an older cursor than the restart before |
| Restarts.RestartsAscendExactly | src/state.rs:158-163 | over all histories the loaded cursors ascend if and only if nothing starts, no batch covers a block, or the block after the initial one can never be published |
| Guarantees.BoundedBuffer | src/application.rs:251-277 | the buffer with the running flush never exceeds its capacity and no publish is ever rejected |
| Guarantees.NeverStuckPaused | src/nats/publisher.rs:123-145 | at every moment outside a running handler a set pause flag implies buffered messages, a lost connection or an unseen change |
| Progress.NextBlockMovesExactly | src/application.rs:282-283 | some run gets past its start block if and only if there is an initial block, batch_size is positive, and one of the first two blocks is empty or the buffer has room for a message |
| Stream.ExactlyOnce | src/nats/publisher.rs:188-190 | the stream holds only messages of the chain, none twice, and all of them above the initial block up to any cursor that can be read back |
| Order.OrderlyMeansPrefix | src/application.rs:248-280 | the stream is a prefix of the canonical sequence, however often batches are dropped and read again, as long as no publish has failed or the buffer holds at most one message, and no restart skips a message that others follow |
| RunOrder.EachRunAcknowledgesInOrder | src/application.rs:248-280 | in every run, whatever earlier runs did, first acknowledgements come in canonical order from the start block until something fails in that run |
| RunStream.EachRunStoresInOrder | src/application.rs:248-280 | in every run, whatever earlier runs did and however late the network delivers, the messages not sent before that run enter the stream in canonical order from its start block, none skipped, until something fails in that run |
| OrderExact.SilentStoresNothing | src/application.rs:251-258 | without an initial block, a batch size or buffer capacity nothing is ever published |
| OrderExact.FailureBreaksOrder | src/nats/publisher.rs:52-62 | with room for two, and two messages on the chain from the initial block on, a reachable state of the first run in which the second is stored before the first |
| OrderExact.RestartBreaksOrder | src/application.rs:359-373 | without any failure, a restart that skips a non-empty initial block lets a later message in first, however far away it is |
| OrderExact.FailuresKeepOrderExactly | src/application.rs:251-258 | over all first runs the stream is in canonical order if and only if the buffer holds at most one message, the chain has at most one, or nothing is published |
| OrderExact.RestartsKeepOrderExactly | src/application.rs:368-373 | over all failure-free histories the stream is in canonical order if and only if the initial block or all later ones are empty, or nothing is published |
| OrderExact.OrderHoldsExactly | src/nats/publisher.rs:48-77 | over all histories the stream is in canonical order if and only if neither failures nor restarts can break it |
| Losses.RestartReadsAgainExactly | src/application.rs:359-373 | a restart reads the block of an unacknowledged message again if and only if it lies above the initial block or no cursor was persisted |
| Losses.ShutdownOnlyPersists | src/application.rs:305-314 | a graceful shutdown, also one that drops a batch with a message in flight or a full buffer, leaves the stream as it was and the buffer empty, and decides by the initial block alone what is read again |
| Losses.ShutdownLosesExactly | src/application.rs:305-314 | a graceful shutdown with a synced cursor, also one that drops a batch, loses a message for good if and only if it is in the initial block and was never sent |
| Losses.ShutdownLosesBufferedMessage | src/application.rs:305-314 | a reachable state with a buffered message that a graceful shutdown loses for good |
| Losses.CanStillBeStored | src/application.rs:353-374 | from every reachable state some history stores a given message above the initial block |
| Losses.LostExactly | src/application.rs:353-374 | in any reachable state a message is lost for good if and only if it is in the initial block, was never sent, a cursor is durable, and the process is down, shutting down or started above that block; or nothing is published at all |
| Losses.LossIsPossibleExactlyInInitialBlock | src/state.rs:98-105 | a message can be lost for good if and only if it is in the initial block or nothing is published at all |
| Runs.Recovers | src/application.rs:136-303 | from every reachable state of a process that is not shutting down, the same run can come to be connected and unpaused with an empty buffer |
| Recovery.CalmRunRecovers | src/application.rs:165-301 | once connected with publishes succeeding, every run that handles the pending change and a tick, whatever batches it reads, publishes or drops meanwhile, ends with an empty buffer, an unpaused reader and a cursor of at least next_block - 1, and next_block has not gone back |
| Recovery.RecoveryIsPossible | src/application.rs:165-211 | such a run exists from every connected state between iterations |
| Buffer.MessageBuffer.constructor | src/nats/buffer.rs:25-31 | an empty buffer with the capacity clamped to 1000 |
| Buffer.MessageBuffer.Push | src/nats/buffer.rs:36-50 | appends, or rejects and changes nothing, exactly when full |
| Buffer.MessageBuffer.Pop | src/nats/buffer.rs:53-55 | takes the oldest message; none exactly when empty |
| Buffer.MessageBuffer.PushFront | src/nats/buffer.rs:61-63 | prepends, whatever the capacity |
| Buffer.MessageBuffer.ExtendFront | src/nats/buffer.rs:70-75 | the loop that pushes in reverse prepends the messages in their order |
| Buffer.MessageBuffer.Drain | src/nats/buffer.rs:98-100 | hands out everything in order and leaves nothing |
| Outside.World.Await | src/nats/client.rs:42-66 | while the process waits, the connection may change any number of times and messages sent may arrive; nothing else changes |
| Outside.World.DoPublish | src/nats/publisher.rs:189-190 | may fail at any time; success means that the stream holds the message's id, and the answer is written down |
| Publishing.Publisher.Publish | src/nats/publisher.rs:48-77 | disconnected: buffered and the reader paused; acknowledged: done, buffer and pause flag untouched; refused: buffered and the reader paused; dropped while waiting: untouched; never rejected |
| Publishing.Publisher.FlushBuffer | src/nats/publisher.rs:84-118 | what was published followed by what is buffered is what was buffered before, in order; it succeeds exactly when no message is refused, and otherwise the one refused is the first of those buffered again; a killed process has published a prefix |
| Publishing.Publisher.HandleStateChange | src/nats/publisher.rs:123-145 | connected: the buffer is flushed as above and the reader resumes whatever comes of it; disconnected: the reader is paused and nothing else changes |
| Publishing.Publisher.TryResumeIfConnected | src/nats/publisher.rs:176-186 | false exactly when disconnected or empty, with nothing changed; else the buffer is flushed as above: true means drained and resumed, an error leaves a non-empty buffer and the pause flag |
| Storage.StateStore.Load | src/state.rs:49-105 | an error exactly if the file is there, can be read, decodes, and is of another chain, naming both chains; a record of this chain gives its cursor, everything else the initial block as a fresh start |
| Storage.StateStore.Update | src/state.rs:108-110 | the maximum of old and new |
| Storage.StateStore.WriteTemporary | src/state.rs:140-147 | up to the rename the state file is untouched at every moment, and success leaves the whole record synced |
| Storage.StateStore.Persist | src/state.rs:123-172 | at every moment the file's versions are the old ones, the old and the new, or the new one, whole and synced; without trouble the new record is the only version, with only the directory sync failing it is the visible one, and an error comes exactly when an operation it depends on fails, the file then being as before |
| Storage.CrashLoadsOldOrNew | src/state.rs:139-163 | killed or without power at any moment of a persist, what is loaded is the new cursor or that of a version before |
| Storage.UnsyncedRenameIsNotAtomic | src/state.rs:146-148 | a remark on the disk model, showing what the sync before the rename is for: without it a power loss could bring back a record nobody persisted |
| Running.ChainGivesDistinctMessages | src/events.rs:172-175 | a well-formed chain meets the protocol's assumption on deduplication ids |
| Running.Application.CatchUp | src/application.rs:185-187 | raises the cursor to next_block - 1 if and only if nothing is buffered |
| Running.Application.HandleChange | src/application.rs:165-189 | connected: flush until a message is refused, resume; disconnected: pause; the cursor rises to next_block - 1 exactly if nothing is buffered, and nothing else changes; or the process is killed in the flush |
| Running.Application.WriteCursor | src/state.rs:123-172 | file and protocol state are replaced by the cursor together, or left alone together |
| Running.Application.PersistCursor | src/application.rs:305-314 | the cursor is persisted as the file operations allow and no other field changes; the shutdown persist ends the process however it ends, the periodic one goes on |
| Running.Application.HandleTick | src/application.rs:192-211 | persists the cursor, going on whatever comes of it; then flushes a non-empty buffer if connected: drained, it resumes the reader and the cursor catches up, and otherwise neither moves |
| Running.Application.WaitUntilUnpaused | src/chain/reader.rs:74-82 | ends unpaused with no field changed, or dropped |
| Running.Application.WaitForRoom | src/application.rs:251-258 | ends with room in the buffer and no field changed, or dropped |
| Running.Application.PublishOne | src/application.rs:248-280 | its message is acknowledged, or buffered with the reader paused, and nothing else changes; or the branch is dropped |
| Running.Application.PublishBatch | src/application.rs:248-280 | every message has been acknowledged or, the reader being paused for it, buffered, each kind in the order of the batch; or the branch was dropped and that holds of the messages before |
| Running.Application.FinishBatch | src/application.rs:281-300 | next block, delay flag and cursor after a batch, and no other field; the cursor moves only with an empty buffer |
| Running.Application.Read | src/application.rs:237-240 | the batch holds the canonical messages of the blocks from next_block to the clamped end |
| Running.Application.PublishAndFinish | src/application.rs:246-300 | a finished batch is published whole and next_block is behind it; a dropped one leaves next_block, cursor and delay flag alone |
| Running.Application.ReadAndPublish | src/application.rs:237-301 | the batch of canonical messages up to the clamped end is published as above, or the branch is dropped before or in it |
| Running.Application.HandleBatch | src/application.rs:214-301 | branch 4 by its end: a whole batch published and passed, nothing new and the delay flag set, or dropped, having done no more than ask for the head and publish a first part |
| Running.Application.Preempt | src/application.rs:155-211 | what comes after a dropped branch 4 is a lawful turn of an earlier branch, or the end of the process |
| Running.Application.Iterate | src/application.rs:136-303 | one turn, or two if branch 4 is dropped: each takes the branch that delay flag, pending change and signal choose, in the biased order, and does what that branch does |
| Running.Application.Run | src/application.rs:136-314 | a run is a chain of such turns from its first fields on, ended by shutdown or a kill or as long as the clock goes |
| Turns.DelayIsFollowedByABranch | src/application.rs:138-152 | in every chain of turns, what follows a delay is one of the branches of the select |
| Turns.RunsAccount | src/application.rs:136-303 | over any run next_block and cursor never decrease, and everything acknowledged or buffered stays so, together with every message of the blocks passed |
| Turns.ReadsUpToTheHead | src/application.rs:214-301 | an undisturbed run reads a batch at least every other turn until it has passed the head: n turns reach min(head + 1, start + floor(n / 2) * batch_size) |
| Supervising.StartsAlike | src/application.rs:353-374 | code and protocol agree on the start: the block after the record, or the initial block without a file, or no start without either |
| Supervising.Open | src/application.rs:336-374 | the store's cursor and the start block are the record's block and the one after it, or twice the initial block, as in the protocol; it fails exactly without file and initial block |
| Supervising.Live | src/application.rs:49-318 | one life: a chain of turns that starts from the state file the last one left; it fails exactly without file and initial block, changing nothing |
| Supervising.LosePower | src/state.rs:158-163 | a power loss leaves one of the versions of the file, whole |
| Supervising.Supervise | src/application.rs:49-318 | any number of lives and power losses keep protocol and file in correspondence; each life is such a chain of turns, and with an initial block each one starts |
| Supervising.Operate | src/application.rs:49-318 | after any history each version of the state file vouches only for stored messages, the stream holds only messages of the chain, each once, and each life was a chain of lawful turns |
| PemLaws.NormalizeIsIdempotent | src/nats/client.rs:183-199 | normalizing twice is normalizing once, for every string |
| PemLaws.FixedPoints | src/nats/client.rs:183-199 | a string is left alone if and only if it is in the described normal form |
| PemLaws.NormalForm | src/nats/client.rs:183-199 | the result has no literal backslash-n, no space next to a marker, no line with trailing whitespace, and ends with a newline |
| PemLaws.OnlyWhitespaceChanges | src/nats/client.rs:183-199 | apart from white space and literal backslash-n the text is preserved |
| PemSpelling.SpellingsAreUndone | src/nats/client.rs:178-199 | line breaks are restored: a text in normal form, with any of its newlines written as a literal backslash-n or as a space next to a marker, with white space left at line ends and anything blank at the end, is normalized to that text |
| PemSpelling.NormalizesExactlySpellings | src/nats/client.rs:183-199 | a string is normalized to a text if and only if the text is in normal form and the string is such a spelling of it |
| PemLaws.JoinedLines | src/nats/client.rs:193-197 | splitting into lines, trimming and joining is trimming in place |

## Left out

- Running.Application.Run: a process that ends while branch 4 waits is taken as the branch dropped and the process ended at the select; both leave the same stream and file.
- Storage.StateStore.Persist: the JSON text, the case of a path without a parent directory and the wall clock are parameters or absent.
- Protocol.ReachableStep: time is not modelled, so a tick may come whenever it is polled, and an acknowledgement may still be taken with a change pending, as when it is there at once; the model has at least the histories of the source.
- Recovery.CalmRunRecovers: no claim that ticks leave a slow batch time to finish; a tick may cancel it every time.
- ABI decoding, the nineteen operator variants and their field copying: parsing is an arbitrary partial function from a log to an event.
- The marker list that recognises a too-large error: a flag on the fetch error.
- Unreadable or corrupt state files, and files of another chain, inside whole histories: `Load` models them, the histories assume readable files of one chain.
- A finite deduplication window, retention and replication of the stream.
- Chain reorganisations and providers that answer successfully with wrong logs.
- The HTTP server, health, liveness, metrics, logging, configuration, TLS, signal handling and stream creation.
- Real durations: delays, timeouts and intervals are nondeterministic waits.
- A failing `get_latest_block`: it retries without end in the source and is a wait here.
