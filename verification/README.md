# Verified model of the maritime test lab

A Dafny 4.11 model of the two at-least-once protocols of the repository and of its exact money
arithmetic, with proofs over whole runs.

* **Money and price** (`Int64`, `Money`, `Estimate`): Go's wrap-around int64, the checks of `Add` and
  `Mul` after the fact, and `EstimateCost`.
* **Estimate pipeline** (`Storage`, `Server`, `OutboxRelay`, `RelayProgress`, `Polling`, `EstimatorConsumer`,
  `EstimateConsumer`, `Broker`, `Pipeline`, `Invariants`, `PipelineTheorems`, `CommitDiscipline`,
  `PoisonPills`, `Recovery`, `PipelineLimits`): the transactional outbox, its relay, the estimator's consumer,
  the versioned upsert, and the gRPC server.
* **Offline client** (`Merge`, `JsonlText`, `QueueStore`, `QueueRuns`, `Syncing`, `Delivery`, `SyncRuns`): the
  coalescing queue, its append-only file, and SyncOnce against the same server.

Code that changes state is modelled by classes (`Postgres`, `Repository`, `Server`, `Kafka`, `Poller`, the two
`Consumer`s, `Disk`, `Store`, `Transport`, `Syncer`) whose methods have the source's branches and loops.
Faults of the environment are method parameters: which statement fails, the fate of each produce (acknowledged,
never written, written with the acknowledgement lost), how far a sequence of file effects gets. Each method is
proved equal to a function of the old state, and states beside that, without the function, what its caller gets. The refinement lemmas (`FlushRefines`, `EstimatorLoopRefines`,
`VoyageLoopRefines`, `StatementsRun`, `SyncOnceIsRun`) show that what these functions do is a run of small atomic
steps, so a theorem about every run of steps in any interleaving also covers a crash at any point of a call.
The client's `Enqueue`, `Store.Ack` and `Open` promise the very functions its steps apply (`AfterAppend`,
`AfterAck`, `Reopened`). A step that is not enabled changes nothing, which lets the theorems quantify over all step
sequences.

`Invariants` carries a history beside the state: how each voyage was born, which offsets were handled with which
verdict, how often an estimate changed a row. The steps never read it.

Assumptions, each visible in a definition: one rate for a run; one partition a topic; topics hold what these
producers wrote plus undecodable bytes; a SQL statement, a whole-line append and a rename are atomic; the JSON
codec is lawful (`JsonlText.Lawful`); the calls of one sync client do not overlap, and after a failed file effect
it is reopened before it does anything else.

Where the code does something other than its comments say, the model follows the code:

* A failed record is said to be redelivered, but a later commit can pass it, and then its estimate is lost for good
  (`PipelineLimits.EstimateCanBeLost`; `CommitDiscipline.EstRunExact` says exactly when every committed record was
  handled with success, `Recovery.EstimateCanArriveExact` exactly when an estimate can still arrive).
* An update that comes before the estimate costs the voyage its estimate for good: it writes no event, and the
  estimate of version 1 no longer applies (`PipelineLimits.EstimateCanBeSilenced`; `PipelineTheorems.SilencedExact`
  says exactly when, `CommitDiscipline.DrainedPipelineIsComplete` that in a guarded run nothing else but an overflow
  does).
* A poison pill is said to cost one dead letter, but a failed dead-letter produce is committed all the same
  (`PipelineLimits.DeadLetterCanBeLost`; `PoisonPills.EstLetterExact` says exactly when every pill has a letter of
  its own).
* An applied estimate need not price the row as it is now, and a retried create can quote another amount than the
  estimate (`PipelineLimits.EstimateCanBeStale`, `RetriedCreateQuotesTheEdit`;
  `PipelineTheorems.EstimateIsCurrentExact` and `QuoteExact` say exactly when they agree).
* An unpriceable voyage is stored although its creation is reported as failed
  (`Server.CreateSucceedsIffPriceable`).
* Coalescing a create and an update offline changes what the server ends up with, since the update left is refused
  and never leaves the queue (`SyncRuns.CreateThenUpdateSticks`; `Delivery.CoalescingExact` says exactly when coalescing
  preserves meaning, `SyncRuns.CleanSyncExact` when a queue drains).
* A queued line of 64 KiB or more is accepted and makes the queue impossible to reopen
  (`QueueRuns.LongLineBlocksReopen`; `ReopensExact` says exactly when a queue can always be reopened).

## Model

| member | source | states |
|---|---|---|
| Int64.TruncatedLaw | internal/money/money.go:58 | Go's quotient: the remainder is smaller than the divisor and the quotient does not overshoot |
| Money.AddExact | internal/money/money.go:38-49 | Add succeeds iff the currencies match and the true sum fits int64, and is then exact |
| Money.DivideBack | internal/money/money.go:56-60 | dividing the wrapped product back recovers the factor iff the true product fits, or the pair is (MinInt64, -1) |
| Money.MulExact | internal/money/money.go:52-62 | Mul succeeds iff the true product fits or the pair is (MinInt64, -1); every other success is exact |
| Money.MulException | internal/money/money.go:56-58 | the excepted pair is accepted with a product that does not fit |
| Estimate.EstimateCostExact | services/estimator/domain/estimate.go:25-42 | succeeds iff distance >= 0, rate > 0, currencies match and both intermediate values fit; exact then |
| Estimate.EstimateCostMonotone | services/estimator/domain/estimate.go:25-42 | the success set is downward closed in distance and the price strictly monotone, whatever the fees |
| Storage.Repository.Create | services/voyage/adapters/postgres/repository.go:63-104 | voyage row and outbox row appear together or not at all under every fault and whatever transaction it waits for; a duplicate gets the stored row |
| Storage.Repository.Update | services/voyage/adapters/postgres/repository.go:119-131 | the guarded update, then, after whatever other sessions run in between, the stored row, at the requested version or above if the voyage existed, or not found |
| Storage.Repository.UpsertEstimate | services/voyage/adapters/postgres/repository.go:149-159 | reports applied iff the guarded update changed the row |
| Storage.CommittedRun | services/voyage/adapters/postgres/repository.go:73-103 | a committed create leaves exactly one new voyage at version 1 and one unstamped outbox row carrying it |
| Storage.RolledBackRun | services/voyage/adapters/postgres/repository.go:68-71 | a rolled-back create leaves nothing but a gap in the id sequence |
| Storage.WaitedIs | services/voyage/adapters/postgres/repository.go:73-86 | what an insert that waited finds: the other call's voyage and outbox row if that committed, nothing new if it rolled back |
| Server.Server.CreateVoyage | services/voyage/adapters/grpcserver/server.go:43-71 | tables and reply under every fault, for new and duplicate voyages: the stored row with its exact price, or pending without an estimator, or the right error |
| Server.Server.UpdateVoyage | services/voyage/adapters/grpcserver/server.go:75-97 | tables and reply under every fault: the row as stored, which a stale request has not changed, or the right error |
| Server.CreateAnswers | services/voyage/adapters/grpcserver/server.go:43-71 | each status by its cause; with the estimator unavailable the stored row comes back pending, with a broken one or an unpriceable row an internal error |
| Server.UpdateAnswers | services/voyage/adapters/grpcserver/server.go:75-97 | the reply shows the row left in the table; strictly newer requests replace content and version only, others nothing; an unknown voyage is missing |
| Server.CreateIsAtomic | services/voyage/adapters/grpcserver/server.go:43-58 | a create changes the tables by exactly the requested voyage and its event, or not at all |
| Server.CreateSucceedsIffPriceable | services/voyage/adapters/grpcserver/server.go:55-70 | with nothing failing a valid create succeeds iff the returned row can be priced, and the voyage is stored either way |
| OutboxRelay.UnpublishedExact | services/voyage/adapters/kafka/poller.go:47-51 | the selected ids are exactly the unstamped ones, ascending |
| OutboxRelay.Poller.SelectUnpublished | services/voyage/adapters/kafka/poller.go:97-116 | the at most 100 lowest unstamped rows in ascending order, or a failed read |
| OutboxRelay.Poller.Flush | services/voyage/adapters/kafka/poller.go:64-83 | for every pattern of failures: a row whose publish fails is passed over, the first failed stamp ends the pass, every row before it is published and stamped if acknowledged |
| OutboxRelay.PassExact | services/voyage/adapters/kafka/poller.go:64-83 | which records a pass adds to the topic and which rows it stamps, for every pattern of failures |
| OutboxRelay.PassIsRun | services/voyage/adapters/kafka/poller.go:64-83 | a pass is a run of select, publish and stamp steps, so each crash point is a prefix |
| RelayProgress.PassesProgress | services/voyage/adapters/kafka/poller.go:47-83 | k healthy passes publish once, in id order, and stamp the min(u, 100k) lowest of u pending rows, and leave the rest as they were |
| RelayProgress.PassesEmptyTheOutbox | services/voyage/adapters/kafka/poller.go:47-83 | k healthy passes leave nothing unstamped iff 100k >= u |
| RelayProgress.FlushStampsOnlyAcked | services/voyage/adapters/kafka/poller.go:71-81 | whatever fails, a pass stamps only rows acknowledged in that pass and changes no other row |
| EstimatorConsumer.Consumer.Run | services/estimator/adapters/kafka/consumer.go:39-61 | the polling loop equals the loop function over fetch, handle and commit, poll after poll |
| EstimatorConsumer.Consumer.RunOnce | services/estimator/adapters/kafka/consumer.go:39-61 | one poll moves to the end of what it was delivered and commits just above its last success, if any and if the commit is stored |
| EstimatorConsumer.EstPollCommits | services/estimator/adapters/kafka/consumer.go:49-59 | the same for any batch, failures in the middle included |
| EstimatorConsumer.Consumer.Handle | services/estimator/adapters/kafka/consumer.go:68-103 | which record is written where, with the exact amount, and when the offset is safe to commit, for every decode, price, encode and produce outcome |
| Polling.LoopIsRun | services/estimator/adapters/kafka/consumer.go:39-61 | the polling loop that both consumers share is a run of atomic steps |
| Polling.LoopedConcat | services/estimator/adapters/kafka/consumer.go:39-61 | polls are taken one after the other, each in full |
| EstimateConsumer.Consumer.Run | services/voyage/adapters/kafka/estimate_consumer.go:39-61 | the polling loop equals the loop function over fetch, handle and commit, poll after poll |
| EstimateConsumer.Consumer.RunOnce | services/voyage/adapters/kafka/estimate_consumer.go:39-61 | one poll moves to the end of what it was delivered and commits just above its last success, if any and if the commit is stored |
| EstimateConsumer.VoyPollCommits | services/voyage/adapters/kafka/estimate_consumer.go:49-59 | the same for any batch, failures in the middle included |
| EstimateConsumer.Consumer.Handle | services/voyage/adapters/kafka/estimate_consumer.go:66-96 | the effect on rows and topics, the verdict, and a counter that moves iff the call reports that the row changed |
| Pipeline.FlushRefines | services/voyage/adapters/kafka/poller.go:64-83 | a relay pass is a run of the pipeline |
| Pipeline.EstimatorLoopRefines | services/estimator/adapters/kafka/consumer.go:39-61 | the estimator's loop is a run of the pipeline |
| Pipeline.VoyageLoopRefines | services/voyage/adapters/kafka/estimate_consumer.go:39-61 | the voyage consumer's loop is a run of the pipeline |
| Invariants.UpsertFills | services/voyage/adapters/postgres/repository.go:48-57 | applying a known estimate only ever fills in a missing one |
| Invariants.StepKeeps | services/voyage/adapters/kafka/poller.go:16-19 | every step of every process, every crash and every bad record keeps the pipeline invariant |
| PipelineTheorems.EstimateIsExact | services/voyage/adapters/postgres/repository.go:48-57 | in every reachable state, for every outbox row, the estimate of its voyage is missing or exactly rate * distance + fees of the row's content |
| PipelineTheorems.EstimateIsCurrentExact | services/voyage/adapters/postgres/repository.go:119-121 | a stored estimate prices the present row iff that has a price and its cost is that of the created content; always at version 1 |
| PipelineTheorems.OutboxConservation | services/voyage/adapters/postgres/repository.go:59-63 | in every reachable state voyages and outbox rows correspond one to one, and stamped rows are in the topic |
| PipelineTheorems.ExactlyOnceEffect | services/voyage/adapters/postgres/repository.go:48-53 | over any run the guarded update has changed a voyage's row once if it has an estimate, otherwise never |
| PipelineTheorems.QuoteAgreement | services/voyage/adapters/grpcserver/server.go:39-42 | if the inserting create quotes, every estimate the voyage ever shows is the quote, whatever runs inside the call and after it |
| PipelineTheorems.QuoteExact | services/voyage/adapters/grpcserver/server.go:55-70 | whenever the quoted row was read: the estimate equals the quote iff that row costs what the created content costs; at version 1 they are the same content |
| PipelineTheorems.RetriedCreateReads | services/voyage/adapters/postgres/repository.go:73-86 | a retried create's insert changes nothing, and whatever runs before the read-back, a row at least as new is there to be quoted |
| PipelineTheorems.CreateReplyQuotes | services/voyage/adapters/grpcserver/server.go:55-70 | the reply of an undisturbed call is the quote of a row in the tables it leaves, and those are reached by a run |
| PipelineTheorems.SilencedExact | services/voyage/adapters/postgres/repository.go:119-131 | a voyage is past version 1 without an estimate iff some effective update came before its estimate |
| PipelineTheorems.SilencedForGood | services/voyage/adapters/postgres/repository.go:54-57 | and then it has none in every continuation |
| PipelineTheorems.VersionHistory | services/voyage/adapters/postgres/repository.go:119-125 | versions never fall, one version never has two contents, an applied estimate never changes, rows never vanish |
| PipelineTheorems.UpdateIsSeen | services/voyage/adapters/postgres/repository.go:126-131 | whatever runs between the update and its read-back, the row read is at the requested version or above |
| PipelineTheorems.DeadLettersArePoison | services/estimator/adapters/kafka/consumer.go:95-103 | only undecodable records of the topic itself reach a dead-letter topic (when they do is PoisonPills) |
| PoisonPills.EstLetterExact | services/estimator/adapters/kafka/consumer.go:68-73 | along a run every offset handled as undecodable has had its own dead letter written iff no step drops the first one of an offset |
| PoisonPills.LettersAreOwn | services/estimator/adapters/kafka/consumer.go:95-103 | each such letter carries the record's bytes, and no two offsets share one |
| PoisonPills.VoyLetterExact | services/voyage/adapters/kafka/estimate_consumer.go:66-71 | the same for the voyage consumer |
| PoisonPills.CommittedPoisonIsLettered | services/estimator/adapters/kafka/consumer.go:95-103 | in such runs every undecodable record below a committed offset has a letter of its own in the dead-letter topic |
| CommitDiscipline.CommitExact | services/estimator/adapters/kafka/consumer.go:49-59 | a stored commit keeps every offset below it handled iff it passes no unrecovered failure |
| CommitDiscipline.EstRunExact | services/estimator/adapters/kafka/consumer.go:39-93 | along a run the estimator's committed offset stays complete iff every commit is guarded |
| CommitDiscipline.VoyRunExact | services/voyage/adapters/kafka/estimate_consumer.go:39-86 | along a run the voyage consumer's committed offset stays complete iff every commit is guarded |
| CommitDiscipline.CautiousIsGuarded | services/estimator/adapters/kafka/consumer.go:49-59 | committing past no failure of the same session, which a consumer can check, is enough for the exact guard |
| CommitDiscipline.CommittedCreatedRecords | services/estimator/adapters/kafka/consumer.go:63-67 | in guarded runs every committed voyage.created record is undecodable, overflows, or has its exact estimate published |
| CommitDiscipline.CommittedReadyRecords | services/voyage/adapters/kafka/estimate_consumer.go:63-65 | in guarded runs every committed estimate.ready record is undecodable, shown by its voyage, or superseded |
| CommitDiscipline.DrainedPipelineIsComplete | services/estimator/adapters/kafka/consumer.go:1-5 | in a drained guarded run a voyage has its exact estimate iff the price fits and no update came before the estimate |
| Recovery.DrainReaches | services/estimator/adapters/kafka/consumer.go:1-5 | every reachable state is drained by a restart, healthy passes and polls, and that gives an estimate to exactly the voyages within reach |
| Recovery.EstimateCanArriveExact | services/estimator/adapters/kafka/consumer.go:49-59 | some continuation brings an estimate iff no update came first, a price exists, and the event is not stamped and passed by both commits |
| Recovery.GuardedRunsRecover | services/estimator/adapters/kafka/consumer.go:1-5 | from every state of a guarded run such a continuation gives each missing estimate unless an update came first or there is no price |
| Recovery.OutOfReachForGood | services/voyage/adapters/postgres/repository.go:48-57 | what is out of reach stays so in every continuation |
| PipelineLimits.EstimateCanBeLost | services/estimator/adapters/kafka/consumer.go:49-59 | a concrete drained run in which a commit passed a failed record, and in no continuation is that voyage's estimate published or stored |
| Recovery.PassedForGood | services/estimator/adapters/kafka/consumer.go:49-59 | a voyage whose event is stamped and below the committed offsets stays without an estimate |
| PipelineLimits.EstimateCanBeSilenced | services/voyage/adapters/postgres/repository.go:119-131 | a concrete drained run in which an update came before the estimate, and in no continuation does the voyage get one |
| PipelineLimits.DeadLetterCanBeLost | services/estimator/adapters/kafka/consumer.go:70-73 | a concrete run in which a poison pill is committed without a dead letter |
| PipelineLimits.EstimateCanBeStale | services/voyage/adapters/postgres/repository.go:119-121 | a concrete run in which an updated row keeps the estimate of version 1 |
| PipelineLimits.RetriedCreateQuotesTheEdit | services/voyage/adapters/grpcserver/server.go:60-69 | a concrete run in which a retried create quotes another amount than the estimate to come |
| Merge.JoinLaws | clients/onboard-sync/domain/merge.go:3-12 | the merge is an associative, idempotent join with bottom that keeps the current side on ties |
| Merge.OneMergeRule | clients/onboard-sync/domain/merge.go:5-6 | the client's rule and the service's guarded update are the same merge |
| Merge.CoalesceIsFirstHighest | clients/onboard-sync/domain/syncer.go:43-48 | the operation left after coalescing is the first at the highest version |
| Delivery.SentIsServed | clients/onboard-sync/adapters/graphqltransport/transport.go:82-101 | a request that is carried out merges into a stored voyage, creates an unknown one at version 1, or has no effect |
| Delivery.CoalescingExact | clients/onboard-sync/domain/syncer.go:43-48 | sending only the coalesced operation leaves the row that sending all in order leaves iff the service can apply it or could apply none |
| Delivery.CoalescingPreservesMeaning | clients/onboard-sync/domain/syncer.go:43-48 | for valid updates of a stored voyage it always does, ties included |
| Delivery.MaxVersionAlwaysWins | services/voyage/adapters/postgres/repository.go:119-125 | sent in any order and repetition, operations on a stored voyage leave the same version, the highest of the row's and the valid updates' |
| Delivery.OrderIndependenceExact | services/voyage/adapters/postgres/repository.go:119-125 | order and repetition never matter iff the possible winners agree on content and, on an unknown voyage, the valid creates agree and no valid update is above version 1 |
| JsonlText.TextRoundTrip | clients/onboard-sync/adapters/jsonlstore/store.go:45-59 | written lines read back as the same operations in order iff every line fits the scanner |
| JsonlText.ReplayAppend | clients/onboard-sync/adapters/jsonlstore/store.go:78-85 | an appended line updates the replayed map at its id, or makes the file unreadable if it is too long |
| JsonlText.ReplayLine | clients/onboard-sync/adapters/jsonlstore/store.go:45-59 | what one more line does to the map: too long or undecodable, nothing opens; blank, nothing changes; otherwise it is stored over earlier lines of its id |
| JsonlText.OpensExact | clients/onboard-sync/adapters/jsonlstore/store.go:45-59 | a file opens iff each of its lines is below 64 KiB and is blank or decodes |
| JsonlText.BadLineBlocks | clients/onboard-sync/adapters/jsonlstore/store.go:51-53 | one line that does not decode, wherever it stands, makes opening fail |
| JsonlText.TextIsLines | clients/onboard-sync/adapters/jsonlstore/store.go:78-83 | a text is the marshalled operations in order, each followed by one newline |
| QueueStore.ListsUnique | clients/onboard-sync/adapters/jsonlstore/store.go:88-98 | a map has only one strictly ascending listing, so the order does not depend on map iteration |
| QueueStore.LessExact | clients/onboard-sync/adapters/jsonlstore/store.go:96 | the order of ids: a proper beginning comes first, otherwise the smaller character at the first difference |
| QueueStore.Store.Load | clients/onboard-sync/adapters/jsonlstore/store.go:35-60 | succeeds iff the file can be opened and every line can be read, and then holds the replayed map |
| QueueStore.Open | clients/onboard-sync/adapters/jsonlstore/store.go:26-33 | a cold start: fails on one unreadable line, otherwise has the replayed map, whatever was in memory before |
| QueueStore.Store.Append | clients/onboard-sync/adapters/jsonlstore/store.go:63-86 | map, appended bytes and success after any number of its effects; memory and file keep agreeing iff the line fits |
| QueueStore.Store.Pending | clients/onboard-sync/adapters/jsonlstore/store.go:89-98 | exactly the entries of the map, ids ascending |
| QueueStore.Store.Ack | clients/onboard-sync/adapters/jsonlstore/store.go:101-106 | removes the entry and rewrites the file, or leaves the file untouched; completed, it restores agreement |
| QueueStore.Store.Compact | clients/onboard-sync/adapters/jsonlstore/store.go:109-145 | the queue file becomes the lines of exactly the map's entries, ids ascending, or stays as it was, at every stopping point |
| QueueStore.CompactedReplays | clients/onboard-sync/adapters/jsonlstore/store.go:109-145 | reopening a compacted file gives back its map, so compacting again reproduces it |
| QueueRuns.FileStepKeeps | clients/onboard-sync/adapters/jsonlstore/store.go:62-106 | at every stopping point of Append and Ack the durable map is the one before or the one intended |
| QueueRuns.FileRefinesMap | clients/onboard-sync/adapters/jsonlstore/store.go:1-5 | if the lines written fit, after any sequence of appends, acks, stops and reopenings the file replays to the map in memory |
| QueueRuns.ReopensExact | clients/onboard-sync/adapters/jsonlstore/store.go:56-85 | a queue can be reopened at every moment of a run iff no over-long line is written in it |
| QueueRuns.LongLineBlocksReopen | clients/onboard-sync/adapters/jsonlstore/store.go:56-58 | a line over the scanner's limit is accepted and makes the queue impossible to reopen |
| Syncing.Transport.Send | clients/onboard-sync/adapters/graphqltransport/transport.go:43-101 | a lost request changes nothing; otherwise the service answers by kind, and it is acknowledged iff the answer is a success and arrives |
| Syncing.Syncer.Enqueue | clients/onboard-sync/domain/syncer.go:38-53 | a pending operation at the same version or above stays, otherwise the new one replaces it, and the line of what is pending is appended, at every stopping point |
| Syncing.Syncer.SyncOnce | clients/onboard-sync/domain/syncer.go:59-79 | tables, map, file, counts, last attempt and error equal the sweep over the listing, for every pattern of outcomes |
| Syncing.Syncer.Status | clients/onboard-sync/domain/syncer.go:87-98 | the depth is the number of queued operations |
| Delivery.SendFrame | clients/onboard-sync/adapters/graphqltransport/transport.go:82-101 | a send touches no other row and leaves no transaction open |
| SyncRuns.SendMerges | clients/onboard-sync/adapters/graphqltransport/transport.go:82-101 | whatever fails, a send moves its row only towards the operation; an acknowledged one leaves nothing to apply |
| SyncRuns.CreateVersionExact | clients/onboard-sync/adapters/graphqltransport/transport.go:97-99 | a first create is stored as enqueued iff its version is 1 |
| SyncRuns.CleanSendExact | services/voyage/adapters/grpcserver/server.go:43-97 | with nothing failing, exactly valid updates of stored voyages and valid priceable creates are acknowledged |
| SyncRuns.ServerAndQueueAreTheFold | clients/onboard-sync/domain/syncer.go:38-79 | in every run of file effects, sends, crashes and reopenings, the server row joined with the operation in the queue file is the fold of everything durably enqueued |
| SyncRuns.DrainedMeansSynced | clients/onboard-sync/domain/syncer.go:55-58 | once the entry has left the file the server holds exactly that fold |
| SyncRuns.LoneUpdateSticks | clients/onboard-sync/domain/syncer.go:43-48 | an update of an unknown voyage stays queued and unacknowledged in every continuation, further edits of it included |
| SyncRuns.CreateThenUpdateCoalesces | clients/onboard-sync/domain/syncer.go:43-48 | an offline create and a newer update become that lone update |
| SyncRuns.CreateThenUpdateSticks | clients/onboard-sync/domain/syncer.go:43-48 | end to end: enqueued for an unknown voyage they are never delivered, whatever follows |
| SyncRuns.SyncOnceIsRun | clients/onboard-sync/domain/syncer.go:59-79 | SyncOnce is the run of a try and a removal for each listed operation, so a crash inside it leaves what a prefix leaves |
| SyncRuns.CleanSyncExact | clients/onboard-sync/domain/syncer.go:55-79 | with nothing failing, a SyncOnce leaves exactly the undeliverable operations, so it empties the queue iff every one is deliverable at the start |
| SyncRuns.SyncOnceAccounts | clients/onboard-sync/domain/syncer.go:59-79 | synced plus failures is the depth before, the depth falls by synced, and exactly the failed operations remain |
| SyncRuns.SyncOnceStops | clients/onboard-sync/domain/syncer.go:66-76 | a call that ends early does so at one acknowledged operation whose removal failed: those before are accounted for, it is still in the file, those after are untouched |

## Left out

- Several partitions a topic: each consumer group has one committed position here; positions of different
  partitions do not interact.
- Several sessions of one consumer group at a time: a rebalance is modelled as a restart of the one member.
- Several relays and several server processes: one relay reads the outbox; any number of creates may be in flight.
- SyncRuns.ServerAndQueueAreTheFold: requires the voyage's creates to carry version 1, because a create's version is
  not sent (SyncRuns.CreateVersionExact), this client as the only writer of the voyage, and lines that fit the
  scanner (QueueRuns.LongLineBlocksReopen).
- Syncing.Transport.Send: nothing else runs between the UPDATE of its request and the read-back; for the service's
  own handler anything may (Storage.Repository.Update).
- SyncRuns.CleanSyncExact: requires that nobody else has a create of a queued voyage open.
- QueueStore.Store.Append: a line is written whole or not at all; a torn last line, which makes Open fail, is not
  modelled.
- An Enqueue overlapping a SyncOnce, whose Ack would remove it by id: calls are sequential.
- Avro and JSON bytes, the Schema Registry, gRPC, GraphQL and HTTP encodings: encoders and decoders are inverse,
  with undecodable records as a case of their own.
- `RetryPolicy`: floating-point backoff with a random draw.
- Gateway resolvers, generated code, trace carriers, metrics other than the applied counter, lag reporting,
  configuration, migrations, wiring.
- `domain.Quote` and `EventPublisher`, which are not on the production path.
- Clocks: `created_at`, `calculated_at`, `published_at` as a time rather than a flag, tickers and deadlines.
- Texts of errors: `lastError` is kept as whether a send has failed.
