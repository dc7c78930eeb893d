# GoMessenger, modelled and proved

GoMessenger delivers commands and events through Kafka or NATS JetStream and makes their handlers safe to
repeat with a durable SQL Inbox. This project models that durable core in Dafny 4.11 and proves what its
documentation promises: redelivery never repeats a committed handler effect, retries are bounded, a message
leaves the broker only when it was effected, copied for a retry or dead-lettered, and everything that is
printed into topics, headers and digests can be told apart again.

The project has five parts.

- **The Inbox.** Four tables (identities, legacy attempts, attempt generations, terminal markers) are maps
  under their SQL keys, and a transaction is a list of row statements. `InboxTables`, `InboxAttempt`,
  `InboxRows` and `InboxMaintenance` define what one delivery and each maintenance operation does and keep
  a row-structure invariant. `InboxSqlite` and `InboxPgsql` are the two backends, classes whose methods
  follow the Go code and are proved to commit exactly that. `InboxRuns` and `InboxGuarantees` replay whole
  histories of calls against a log and derive the guarantees: at most one effect per identity, closed cycles
  stay closed, counters count, retention removes only what was confirmed.
- **The batch algorithm.** A batch means one single attempt per logical key on its first matching delivery
  (`InboxBatch`). `InboxGroups`, `InboxSqliteBatch`, `InboxSettlement`, `InboxClosing` and `InboxBatchStore`
  follow the set-based algorithm phase by phase and prove that it commits that meaning and reports it;
  `InboxPgsqlBatch` does the same for the PostgreSQL variant.
- **The brokers.** `KafkaBatch`, `KafkaProcess` and `DeliveryBatches` model which polled records form a batch,
  what becomes of each and which offsets are set. `KafkaHandoff` is a state machine of logs, offsets, dead
  letters and the Inbox, in which other Inbox calls may fall between a decision and its commit and no message
  is ever lost; `KafkaPaths` shows that a batch handed off by the consumer is a path of it. `NatsBatch`,
  `NatsHandoff` and `NatsFinish` do the same for NATS, where publishing, acknowledging and confirming are
  separate steps that can fail or be cut off anywhere.
- **The retry-partition scheduler**, an indexed heap that stands for a plain map of deadlines.
- **Smaller algebraic cores:** topic names, control headers, subject patterns, topology plans, backoff,
  digest preimages, and the runtime lifecycle as interleaved critical sections.

Time is a natural number read once per transaction. Handler outcomes, clock readings, random draws, broker
replies and the order in which a map is walked are parameters, so that every statement holds for all of them.
A crash is a transaction that does not commit, or a worker that takes no further step.

Where the code differs from its promise, the code is modelled as it is. The one-by-one check of stream
subjects refuses some lists that cover the current subjects only jointly; `SubjectPatterns` states exactly
which. The bound of the NATS retry jitter wraps around at the largest duration; `Backoff` states exactly when.

## Model

| member | source | states |
|---|---|---|
| BatchRuntime.Classify | internal/batchruntime/batchruntime.go:30-44 | An error that carries several markers counts by precedence: permanent if marked so at all, else deferred, else retried after a delay, else ordinary, each with its own delay and no other; only no error at all counts as success. |
| BatchRuntime.CoverTest | internal/batchruntime/batchruntime.go:48-86 | Counting the results and checking both key lists for duplicates and strangers decides whether the results name every expected message exactly once and nothing else. |
| BatchRuntime.ValidateResult | internal/batchruntime/batchruntime.go:48-86 | A partial batch result is accepted if and only if it covers the expected keys one to one, and the outcomes come back in the order of the expected keys. |
| BatchRuntime.CheckExpected | internal/batchruntime/batchruntime.go:53-63 | The expected keys are usable if and only if each is complete and none is repeated. |
| BatchRuntime.CollectResults | internal/batchruntime/batchruntime.go:64-75 | Results are collected if and only if no key is repeated or unexpected, and then the map holds exactly the given results. |
| InboxTables.TransactionsAgree | adapters/inbox/sqlite/batch.go:47-159 | Two transactions that give every identity the same statements in the same order commit the same four tables, however they interleave identities. |
| InboxTables.ExecAllProject | adapters/inbox/sqlite/batch.go:47-159 | What a transaction leaves of one identity is decided by that identity's own statements. |
| InboxAttempt.AttemptLocal | adapters/inbox/sqlite/sqlite.go:121-175 | What a delivery is entitled to, what it writes and what it is answered depend on nothing but the rows of its own identity. |
| InboxAttempt.AttemptFrame | adapters/inbox/sqlite/sqlite.go:121-215 | An attempt leaves every row of every other identity as it was. |
| InboxRows.DecideByView | adapters/inbox/sqlite/sqlite.go:282-304 | On consistent rows the handler runs only for an open cycle, with an attempt number one above the stored counter and never above the limit; a cycle with a terminal row is never run again under any limit, and a refusal names the stored kind. |
| InboxRows.AttemptByView | adapters/inbox/sqlite/sqlite.go:121-215 | The committed statements leave of their cycle exactly what the outcome calls for (completion, counter, terminal row, or an untouched counter for a deferral) and change no other cycle. |
| InboxRows.AttemptKeepsRows | adapters/inbox/sqlite/sqlite.go:121-324 | Every committed attempt keeps the row structure: a terminal row has its attempt row with the same count, an attempt row its identity under the same digest, an incomplete identity at least one attempt row. |
| InboxSqlite.ConsumeAttempt | adapters/inbox/sqlite/sqlite.go:306-324 | Inserting the first attempt row or incrementing the existing one is the same as one upsert that adds one. |
| InboxSqlite.FinishFailedAttempt | adapters/inbox/sqlite/sqlite.go:177-215 | A failed handler leaves the statements its classification calls for, and reports the attempt it consumed, or for a deferral the one before. |
| InboxSqlite.PrepareAttemptIdentity | adapters/inbox/sqlite/sqlite.go:242-280 | Afterwards the identity exists under the delivered digest unless another one was stored; a conflict and a completed identity are answered without a handler, the latter with its stored count. |
| InboxSqlite.RunHandler | adapters/inbox/sqlite/sqlite.go:156-175 | Success consumes an attempt and completes the identity in the same transaction; failure keeps only its own accounting. |
| InboxSqlite.Backend.ProcessAttempt | adapters/inbox/sqlite/sqlite.go:121-175 | Tables, reply and the decision to call the handler are those of the specified attempt, for every prior content of the tables, every limit and every handler outcome. |
| InboxMaintenance.ProcessNeverResumes | adapters/inbox/sqlite/sqlite.go:502-537 | On consistent rows plain processing runs its handler exactly for identities that do not exist yet, never for one that exists and is incomplete. |
| InboxMaintenance.ProcessEffect | adapters/inbox/sqlite/sqlite.go:79-119 | Plain processing adds one completed identity or nothing. |
| InboxMaintenance.ProcessKeepsRows | adapters/inbox/sqlite/sqlite.go:79-119 | Plain processing keeps the row structure. |
| InboxSqlite.Backend.ProcessOnce | adapters/inbox/sqlite/sqlite.go:79-119 | The transaction commits exactly the specified result and reports why it ran or did not run the handler; a failed handler leaves nothing. |
| InboxMaintenance.DropCycleCase | adapters/inbox/internal/terminalstate/retention.go:132-185 | Dropping a cycle takes its rows and no other, and leaves no terminal row without an attempt row. |
| InboxMaintenance.RemoveCycleKeepsRows | adapters/inbox/internal/terminalstate/retention.go:132-185 | Removing one cycle keeps the row structure, touches no sibling generation and no other identity, and deletes the identity row exactly if no attempt row of it is left. |
| InboxMaintenance.ForgetRemovesCycle | adapters/inbox/sqlite/sqlite.go:387-444 | The explicit reset, which deletes the legacy row by identity alone, removes exactly the one cycle that its key names. |
| InboxSqlite.Backend.ForgetAttempt | adapters/inbox/sqlite/sqlite.go:387-444 | The named incomplete cycle loses its counter and its terminal row, every other cycle keeps its own, and the identity row stays exactly as long as some attempt row does; a conflict is reported exactly if another digest is stored, and then nothing changes. |
| InboxMaintenance.ConfirmKeepsRows | adapters/inbox/internal/terminalstate/retention.go:16-46 | Confirming a hand-off keeps the row structure and every other cycle. |
| InboxSqlite.Backend.ConfirmTerminalHandoff | adapters/inbox/internal/terminalstate/retention.go:16-46 | The confirmation time of the named closed cycle becomes the later of the stored one and now, and nothing else in any table changes; a missing or conflicting cycle is reported and changes nothing. |
| InboxMaintenance.PruneFrame | adapters/inbox/sqlite/sqlite.go:473-500 | Retiring identities removes all their rows from all four tables and no row of anybody else. |
| InboxMaintenance.PruneKeepsRows | adapters/inbox/sqlite/sqlite.go:473-500 | Retiring completed identities keeps the row structure. |
| InboxSqlite.Backend.PruneCompleted | adapters/inbox/sqlite/sqlite.go:473-500 | At most limit identities go; each of them is gone from all four tables, and every other identity keeps all its rows. |
| InboxMaintenance.PruneCandidateKeepsRows | adapters/inbox/internal/terminalstate/retention.go:132-185 | Removing a candidate keeps the row structure, also when the candidate list is stale. |
| InboxSqlite.PruneLocked | adapters/inbox/internal/terminalstate/retention.go:132-185 | A candidate is removed exactly if, looked at again under its lock, it is closed, incomplete and confirmed before the cutoff; the count says whether it was. |
| InboxSqlite.Backend.PruneTerminalAttempts | adapters/inbox/internal/terminalstate/retention.go:79-130 | For an arbitrary stale candidate list the sweep removes as many terminal rows as it reports, and at most the limit. |
| InboxRuns.StepKeepsRows | adapters/inbox/sqlite/sqlite.go:79-537 | Every committed call of every kind keeps the row structure. |
| InboxRuns.StepAgrees | adapters/inbox/sqlite/sqlite.go:79-537 | After every committed call the tables say exactly what the log of handler runs, recordings, confirmations and removals says. |
| InboxRuns.RunAgrees | adapters/inbox/sqlite/sqlite.go:79-537 | After every history that starts from empty tables, each counter is the number of committed runs that consumed an attempt since the last removal, each terminal row carries the latest confirmation after the latest recording, and an identity is complete exactly if it has one committed effect, of the content whose digest is stored. |
| InboxRuns.RunLegal | adapters/inbox/sqlite/sqlite.go:121-324 | In every history a handler runs only on an open cycle below its limit of an identity without effect, and a cycle is pruned only after a confirmation before the cutoff. |
| InboxGuarantees.AtMostOneEffect | adapters/inbox/sqlite/sqlite.go:79-175 | Between two retirements an identity has at most one committed handler effect, across all generations and any mix of plain, single and batch calls. |
| InboxGuarantees.CompletedHasEffect | adapters/inbox/sqlite/sqlite.go:160-175 | An identity is complete only because an effect of the very content whose digest is stored was committed. |
| InboxGuarantees.CompletionLasts | adapters/inbox/sqlite/sqlite.go:79-175 | Once complete, an identity stays complete through every continuation of the history until it is retired. |
| InboxGuarantees.ClosedStaysClosed | adapters/inbox/sqlite/sqlite.go:282-304 | After a cycle was closed, as permanent or as exhausted, no later call at any limit runs its handler until the cycle is explicitly removed. |
| InboxGuarantees.ConsumedWithinLimit | adapters/inbox/sqlite/sqlite.go:282-324 | The attempts consumed in one cycle never exceed the greatest limit under which it ran. |
| InboxGuarantees.CounterWithinLimit | adapters/inbox/sqlite/sqlite.go:282-324 | The stored counter equals the number of consuming runs, deferrals not counted, and is bounded by the greatest limit. |
| InboxGuarantees.MarkerMeans | adapters/inbox/internal/terminalstate/state.go:29-76 | A terminal marker in the log means a latest recording that nothing has removed, and its confirmation is the latest one that followed it. |
| InboxGuarantees.PrunedWasConfirmed | adapters/inbox/internal/terminalstate/retention.go:79-185 | Terminal retention removes a cycle only if a confirmation came after its latest recording and every such confirmation is older than the cutoff. |
| InboxGuarantees.ClosedOrConfirmed | adapters/inbox/internal/terminalstate/retention.go:79-185 | A closed cycle that was neither reset nor retired still has its terminal row, or somebody asked for its confirmation. |
| InboxGuarantees.SweepIsRun | adapters/inbox/internal/terminalstate/retention.go:79-103 | A sweep over any candidate list is a history of single removals, so that everything said about histories covers it. |
| InboxBatch.InterleavingCommitsResult | adapters/inbox/sqlite/batch.go:47-159 | Any transaction that gives each identity the statements of its lead, in whatever interleaving, commits what one single attempt per lead would commit one after another. |
| InboxBatch.LeadIds | adapters/inbox/sqlite/batch.go:195-260 | Each identity appears at most once among the leads of a batch, and appears exactly if some delivery of it matches the stored digest. |
| InboxGroups.PrepareGroups | adapters/inbox/sqlite/batch.go:176-193 | Deliveries are grouped by logical key, every position in exactly one group and in broker order; grouping fails if and only if one key appears under two generations. |
| InboxGroups.LockOrder | adapters/inbox/sqlite/batch.go:67-73 | Groups are locked in the order of source and message identifier, none lost and none added. |
| InboxSqliteBatch.InsertIdentities | adapters/inbox/sqlite/batch.go:262-289 | The insert completes the first phase: every identity that was missing, and no other, has its identity statement executed. |
| InboxSqliteBatch.SplitEntries | adapters/inbox/sqlite/batch.go:218-227 | The entries are split exactly by the stored digest, in order, and each mismatch gets its conflict under its own key. |
| InboxSqliteBatch.AssignOutcome | adapters/inbox/sqlite/batch.go:414-427 | Exactly the matching deliveries get the group's outcome, each under its own key, and all but the first are marked as duplicates. |
| InboxSqliteBatch.FollowerOutcome | adapters/inbox/sqlite/batch.go:414-427 | A follower's committed decision is its lead's decision under its own key, marked as a duplicate. |
| InboxSqliteBatch.AdmissionIsDecision | adapters/inbox/sqlite/batch.go:237-257 | The batch admits a key to its handler if and only if a single delivery of it would run the handler, with the same attempt number, and otherwise gives the outcome that the single reply stands for. |
| InboxSqliteBatch.AdmitGroup | adapters/inbox/sqlite/batch.go:206-258 | Looking at one group decides exactly those positions of it that need no handler, with their committed outcome. |
| InboxSqliteBatch.PrepareIdentities | adapters/inbox/sqlite/batch.go:195-260 | After admission exactly the identities that await the handler are active, each once, and every other position has its committed outcome. |
| InboxSqliteBatch.SortActive | adapters/inbox/sqlite/batch.go:81-81 | The handler gets the active keys in broker order of their leads, each once. |
| InboxSettlement.SelectGroups | adapters/inbox/sqlite/batch.go:103-137 | Exactly the groups whose classified outcome a set-based statement serves are selected, each once. |
| InboxSettlement.LegacyFirst | adapters/inbox/sqlite/batch.go:306-343 | The groups filed in the legacy attempt table come first and the replayed ones after them, both in the order given, none lost and none repeated. |
| InboxSettlement.ApplyRows | adapters/inbox/sqlite/batch.go:306-402 | One set-based statement over the selected groups completes its phase for every identity at once. |
| InboxSettlement.BumpedCounter | adapters/inbox/sqlite/batch.go:345-356 | The counter read back after the bulk increment is one more than at admission. |
| InboxSettlement.HandledIsOutcome | adapters/inbox/sqlite/batch.go:118-150 | The outcome computed from the returned counter is the one that the single reply stands for. |
| InboxSettlement.FillOutcomes | adapters/inbox/sqlite/batch.go:116-151 | After the handler every position of the batch has its committed outcome, in place and complete. |
| InboxClosing.PositionClosing | adapters/inbox/sqlite/batch.go:161-174 | A reported deferral on the first attempt and a reported closure each owe exactly one row, at any position, and followers owe the row of their lead. |
| InboxClosing.PreserveDeferred | adapters/inbox/internal/terminalstate/deferred.go:16-66 | A zero row is left for exactly the cycles deferred on their first attempt, and repeats change nothing. |
| InboxClosing.RecordTerminals | adapters/inbox/internal/terminalstate/state.go:29-76 | One terminal record is written per closed cycle that the report mentions, however often it is mentioned. |
| InboxBatchStore.CheckConsumers | adapters/inbox/inbox.go:190-236 | A batch passes if and only if all its deliveries name one consumer. |
| InboxBatchStore.AdmitBatch | adapters/inbox/sqlite/batch.go:66-81 | Up to the handler call the transaction has executed the first phase and nothing else, and the active groups stand in broker order. |
| InboxBatchStore.HandlerView | adapters/inbox/sqlite/batch.go:82-89 | The handler is shown exactly the active leads, and is expected to answer for exactly their keys. |
| InboxBatchStore.SettleActive | adapters/inbox/sqlite/batch.go:103-157 | Increments, outcomes, completions and terminal marks leave the transaction at the end of the fourth phase with a full report. |
| InboxBatchStore.FinishBatch | adapters/inbox/sqlite/batch.go:161-174 | Deferral rows and terminal records complete the transaction to the sequential result. |
| InboxBatchStore.SameActive | adapters/inbox/sqlite/batch.go:74-89 | Who awaits the handler does not depend on what the handler will answer. |
| InboxBatchStore.RunBatchIs | adapters/inbox/sqlite/batch.go:78-101 | A usable answer commits; an error together with results, a fail-closed error or an answer that is no cover rejects the batch; in both cases nothing is written. |
| InboxBatchStore.TransactBatch | adapters/inbox/sqlite/batch.go:58-159 | The transaction commits the sequential result with the specified report, or leaves the tables alone. |
| InboxBatchStore.ProcessBatch | adapters/inbox/sqlite/batch.go:47-174 | One batch leaves the same four tables as one single attempt per logical key on its first matching delivery, with the same errors per item; a refused or failed batch changes nothing. |
| InboxSqlite.Backend.ProcessBatchAttempt | adapters/inbox/sqlite/batch.go:47-159 | The committed state and the report of the backend are those of the specified batch. |
| InboxBatchStore.HandlerSeesUniqueKeys | adapters/inbox/sqlite/batch.go:81-89 | The handler sees every logical key at most once, in strictly increasing broker order. |
| InboxBatchStore.BatchIsAllOrNothing | adapters/inbox/sqlite/batch.go:47-174 | A rejected batch leaves the tables as they were; a committed one answers every position once, under that position's own key and fingerprint. |
| InboxGuarantees.SequentialRun | adapters/inbox/sqlite/batch.go:47-159 | Attempting the leads one after another is a history of single attempts. |
| InboxGuarantees.BatchContinuesRun | adapters/inbox/sqlite/batch.go:47-159 | A committed batch continues any history by one single attempt per lead, so that every guarantee about histories covers batches. |
| InboxGuarantees.BatchDecidesAlone | adapters/inbox/sqlite/batch.go:195-260 | Inside a batch every lead is decided as if the batch held nothing else. |
| InboxAcks.ResultRows | adapters/inbox/sqlite/batch.go:47-159 | A batch leaves the rows of every identity as its lead's own transaction would. |
| InboxAcks.CleanReplyCompletes | adapters/inbox/sqlite/sqlite.go:156-175 | A single attempt that reports no error has durably completed its identity under the delivered digest. |
| InboxAcks.AckMeansComplete | adapters/inbox/sqlite/batch.go:116-157 | A position is acknowledged only if the committed tables show its identity complete under its own digest, also as a follower or a duplicate. |
| InboxAcks.ClosedReplyRecords | adapters/inbox/sqlite/sqlite.go:139-162 | A reply that calls for a dead letter to be confirmed leaves its cycle closed on record with its hand-off open. |
| InboxAcks.DeadMeansRecorded | adapters/inbox/sqlite/batch.go:161-174 | A position is dead-lettered as closed only if the committed tables show its cycle closed and its hand-off open. |
| InboxAcks.ReplyReportsCounter | adapters/inbox/sqlite/sqlite.go:139-215 | The attempt number in a reply is the durable counter of the cycle after the transaction, whether the handler ran, was deferred or was not called. |
| InboxAcks.OutcomeReportsCounter | adapters/inbox/sqlite/batch.go:114-157 | The attempt number that a batch reports for a matching delivery is the durable counter that the batch left. |
| InboxAcks.ReplySaysTables | adapters/inbox/sqlite/sqlite.go:121-215 | A delivery that does not conflict is acknowledged if and only if its identity is complete afterwards, and dead-lettered if and only if the identity is incomplete and the cycle closed. |
| InboxAcks.OutcomeSaysTables | adapters/inbox/sqlite/batch.go:47-174 | The same holds for every matching position of a batch against the tables that the batch committed. |
| InboxPgsql.FreshShortcut | adapters/inbox/pgsql/pgsql.go:140-151 | Skipping the read of the attempt row takes the decision that reading it would take if and only if the cycle has no attempt row. |
| InboxPgsql.NoRowOutlivesIdentity | adapters/inbox/pgsql/pgsql.go:401-458 | On consistent rows no attempt row outlives its identity row, which is what the shortcut relies on. |
| InboxPgsql.Backend.ProcessAttempt | adapters/inbox/pgsql/pgsql.go:127-184 | From every reachable state the shortcut backend leaves the same tables and gives the same reply as the one that always reads the row. |
| InboxPgsql.Backend.ProcessBatchAttempt | adapters/inbox/pgsql/batch.go:51-163 | The committed state and the report of the set-based backend are those of the same specified batch. |
| InboxPgsqlBatch.ReadIdentities | adapters/inbox/pgsql/batch.go:216-248 | The locking read returns the row of every requested identity that exists, and no other. |
| InboxPgsqlBatch.ReadPass | adapters/inbox/pgsql/batch.go:311-374 | A read of one attempt table fills in the rows of exactly the groups filed there and keeps what the other table gave. |
| InboxPgsqlBatch.ReadBatchAttempts | adapters/inbox/pgsql/batch.go:305-376 | The two set reads give every group the state that a single read of its own row would give. |
| InboxPgsqlBatch.SplitGroups | adapters/inbox/pgsql/batch.go:250-271 | The first pass decides exactly the conflicts and keeps exactly the groups that have a lead. |
| InboxPgsqlBatch.DecideGroups | adapters/inbox/pgsql/batch.go:272-303 | The second pass decides completed and closed keys with their committed outcome and keeps exactly the identities that await the handler. |
| InboxPgsqlBatch.ReturnedAttempts | adapters/inbox/pgsql/batch.go:378-446 | The returned counters name every incremented group once, with the count that the increment left. |
| InboxPgsqlBatch.AdmitInSets | adapters/inbox/pgsql/batch.go:70-91 | Admission in sets reaches the same state as admission group by group. |
| InboxPgsqlBatch.FillFromReturned | adapters/inbox/pgsql/batch.go:120-155 | Filling the report from the returned counters gives every position its committed outcome. |
| InboxPgsqlBatch.SettleInSets | adapters/inbox/pgsql/batch.go:107-161 | The increment returns a counter for every consuming group, so that the incomplete-return error never occurs, and the settlement ends where the row-by-row one ends. |
| InboxPgsqlBatch.TransactInSets | adapters/inbox/pgsql/batch.go:64-178 | The set-based transaction commits the sequential result with the specified report, or leaves the tables alone. |
| InboxPgsqlBatch.ProcessBatchInSets | adapters/inbox/pgsql/batch.go:51-178 | The set-based batch algorithm leaves the same tables and the same report as the row-by-row one. |
| Deliveries.BatchAgreesWithSingle | adapters/kafka/consumer.go:906-951 | Batch and single-message consumers send a lead's reply the same way: acknowledged, retried with the same delay, or dead-lettered with the same attempt and confirmation. |
| DeliveryBatches.ReplyKept | adapters/kafka/consumer.go:895-939 | After a single attempt an acknowledgement has a completed identity behind it, and a dead letter to be confirmed a closed cycle. |
| DeliveryBatches.EnterBatch | adapters/kafka/batch_consumer.go:571-606 | Exactly the deliveries without an early fate are handed to the Inbox, in order and under their own key. |
| DeliveryBatches.EnteredIsUniform | adapters/kafka/batch_consumer.go:423-438 | A batch without clashing generations is never refused by the Inbox as mixed. |
| DeliveryBatches.ReportedKept | adapters/kafka/batch_consumer.go:610-696 | Every reported fate keeps its promise against the tables the call left; an Inbox call for such a batch fails only with a top-level or an invalid handler answer, and then wrote nothing. |
| DeliveryBatches.DecideBatch | adapters/kafka/batch_consumer.go:571-696 | Every delivery gets exactly one fate, its early one or its reported one; nothing is left open, and every fate keeps its promise. |
| DeliveryBatches.ConfirmHandoffs | adapters/kafka/batch_consumer.go:793-816 | Every closed cycle of a finished batch is confirmed once in whatever order, nothing else changes, and running out of time leaves a subset confirmed. |
| KafkaTopics.TopicInjective | adapters/kafka/topic.go:23-40 | Equal source topics come from equal namespaces and descriptors, although names may contain dots. |
| KafkaTopics.PrintedParses | adapters/kafka/topic.go:223-251 | The first kind marker splits a printed topic into exactly what it was printed from. |
| KafkaTopics.MatchesKind | adapters/kafka/topic.go:223-251 | The scan over marker occurrences succeeds if and only if some namespace and descriptor of that kind print the topic. |
| KafkaTopics.ValidateSourceTopicName | adapters/kafka/topic.go:223-251 | A source topic name is accepted if and only if some namespace and descriptor print it. |
| KafkaTopics.MakeConsumerTopic | adapters/kafka/topic.go:42-54 | A service topic is built exactly for a printable source, a valid consumer and a name within the limits. |
| KafkaTopics.ServiceIsNeverSource | adapters/kafka/topic.go:42-84 | No retry, replay or dead-letter topic is a source topic of any namespace and descriptor. |
| KafkaTopics.ServiceTopicsDistinct | adapters/kafka/topic.go:42-84 | Service topics of different source, consumer, role or tier never coincide, even if consumer names contain dots or look like suffixes. |
| KafkaTopics.RetryTierFromTopic | adapters/kafka/topology.go:331-348 | The tier is recovered from exactly the retry topics of the given source and consumer. |
| KafkaControl.DecodeHeaders | adapters/kafka/control.go:83-137 | Reading header by header gives the same metadata as the declarative reading: only reserved names, each at most once whatever its case, none too large. |
| KafkaControl.RoundTrip | adapters/kafka/control.go:83-157 | Decoding undoes printing if and only if the metadata fit their types, the topic is valid and the generation is short enough and neither begins nor ends with Unicode white space. |
| KafkaRecords.PreparedControl | adapters/kafka/consumer.go:768-819 | Whatever becomes of a record, it keeps the origin that its headers name, or its own position; a ready one has valid control headers and comes from this consumer's source topic. |
| KafkaRecords.DueIsEarliest | adapters/kafka/consumer.go:831-842 | A record is due at the first instant from now on that lies between its two time bounds, and expired if and only if there is no such instant. |
| KafkaBatch.CutMeans | adapters/kafka/batch_consumer.go:371-421 | The cut is the greedy prefix: every record before it was admitted after those before it, and the record at it was not. |
| KafkaBatch.CutGrows | adapters/kafka/batch_consumer.go:371-421 | Looking at one more record moves the cut by at most one, and never once it has stopped. |
| KafkaBatch.PolledBatch.Look | adapters/kafka/batch_consumer.go:372-420 | The selection fields always say where the cut of the records seen of this partition lies, which record comes first after it, and until when that one is deferred. |
| KafkaBatch.PolledBatch.Select | adapters/kafka/batch_consumer.go:371-421 | Looking at the records of one poll in order leaves the fields at the cut of everything polled so far. |
| KafkaBatch.PolledBatch.SortByOffset | adapters/kafka/batch_consumer.go:365-367 | The final sort changes nothing, because a partition's records arrive in offset order. |
| KafkaBatch.RecordEarliest | adapters/kafka/batch_consumer.go:962-976 | The map holds, for every polled partition, the first record with its least offset. |
| KafkaBatch.Collect | adapters/kafka/batch_consumer.go:314-369 | For every sequence of first and fill polls the batch is the greedy prefix of one partition, and the earliest offsets are known for all partitions polled. |
| KafkaBatch.CutLimits | adapters/kafka/batch_consumer.go:371-421 | A batch is empty if and only if its first record is not due, stays within the message limit, exceeds the byte limit only if its first record alone does, and never holds one message under two generations. |
| KafkaBatch.NoRecordSkipped | adapters/kafka/batch_consumer.go:881-893 | The offsets set for a processed batch lie beyond exactly its own records; every other polled record, on any partition, will be fetched again. |
| KafkaBatch.RewindKeepsAll | adapters/kafka/batch_consumer.go:947-960 | Rewinding lets every polled record be fetched again. |
| KafkaProcess.EntranceWindow | adapters/kafka/consumer.go:868-876 | A message reaches the Inbox only within its time bounds; one that is too early is scheduled for exactly its own time, and one that is kept out for good can never be handled again. |
| KafkaProcess.ProcessRecord | adapters/kafka/consumer.go:844-951 | A single record is acknowledged only with its identity complete, and marked for confirmation only with its cycle closed; its fate is the one its reply calls for. |
| KafkaProcess.CutIsSelectable | adapters/kafka/batch_consumer.go:371-438 | A selected batch holds no record that is not due and no clash of generations. |
| KafkaProcess.SelectedIsUniform | adapters/kafka/batch_consumer.go:423-438 | Selection rules out the batches that the Inbox refuses as mixed. |
| KafkaProcess.ProcessKafkaBatch | adapters/kafka/batch_consumer.go:571-745 | Every record of a batch gets exactly one fate that the tables back up, so that the missing-outcome branch is unreachable; an unusable handler answer writes nothing. |
| KafkaProcess.MakeRetry | adapters/kafka/batch_consumer.go:835-856 | A retry copy keeps message, origin and generation, comes due after its delay, and goes to the first tier that covers the delay. |
| KafkaProcess.ProduceOne | adapters/kafka/batch_consumer.go:835-879 | A dead letter carries the origin, the generation and the original of its record; a retry copy keeps message, origin and generation and comes due after its delay in the first tier that covers it. |
| KafkaProcess.Produce | adapters/kafka/batch_consumer.go:716-746 | Exactly the records that were not acknowledged are produced, one each and in order, and exactly the dead letters of closed cycles are remembered for confirmation. |
| KafkaProcess.ConservationCounts | adapters/kafka/batch_consumer.go:716-746 | A transaction consumes exactly as many records as it acknowledges plus produces. |
| KafkaProcess.HandOffBatch | adapters/kafka/batch_consumer.go:447-818 | A batch is committed as a whole or not at all; confirmations happen only after a commit, only for cycles that were dead-lettered as closed, and for all of those if time suffices. |
| KafkaHandoff.CopyLineage | adapters/kafka/control.go:139-157 | However often a message is copied, every copy names the same source position and generation and carries the same message. |
| KafkaHandoff.TransactionIsSafe | adapters/kafka/consumer.go:1064-1119 | A committed consumer transaction loses no message, also if other Inbox calls confirmed, pruned or retired rows between the decision and the commit: each consumed record was effected with its own content, is dead-lettered, or lives on as a copy still to be delivered. |
| KafkaHandoff.EveryRunIsSafe | adapters/kafka/consumer.go:844-1119 | In every reachable world, with producers, Inbox calls, consumer transactions and confirmations in any order, decisions taken at any earlier Inbox state and crashes in between, no message that was ever logged is lost, offsets stay inside the log, and consumption equals acknowledgements plus copies plus dead letters. |
| KafkaHandoff.OffsetCommitIsSafe | adapters/kafka/consumer.go:1064-1119 | A record below the committed offset was effected, is dead-lettered, or has a pending copy somewhere else. |
| KafkaHandoff.DeadCyclesHandedOver | adapters/kafka/batch_consumer.go:716-818 | Every cycle that a committed transaction leaves to be confirmed has the dead letter of its own record in the topic, found from what the transaction produced. |
| KafkaHandoff.EveryRunIsBacked | adapters/kafka/batch_consumer.go:793-816 | A consumer confirms the cycles that its committed transaction dead-lettered as closed; in every reachable world each confirmed or confirmable cycle has a message of its own lineage in the dead-letter topic. |
| KafkaHandoff.ClosedIsProtected | adapters/inbox/internal/terminalstate/retention.go:79-185 | In every reachable world a closed cycle still has its terminal row or its message is in the dead-letter topic, so that retention never discards a closed message that was not handed over. |
| KafkaHandoff.BatchIsNext | adapters/kafka/batch_consumer.go:314-421 | What a batch selects are the next records of its partition after the committed offset. |
| KafkaHandoff.ConsumerTakesStep | adapters/kafka/batch_consumer.go:447-818 | Selecting, deciding and producing as the consumer does is one step of the world, although the records were polled and decided on in earlier states and Inbox calls fell in between; it moves the committed offset by the length of the batch. |
| KafkaPaths.InboxPath | adapters/kafka/batch_consumer.go:571-606 | A batch call is a path of Inbox calls that ends in the tables that the batch committed. |
| KafkaPaths.ConfirmsPath | adapters/kafka/batch_consumer.go:793-816 | Confirming a set of handed-over cycles one by one is a path of the machine that ends in the tables with exactly those confirmed. |
| KafkaPaths.HandOffIsPath | adapters/kafka/batch_consumer.go:447-818 | A batch that the consumer hands off is a path of the machine, the calls of its Inbox transaction, one consumer transaction and the confirmations of its dead letters, and both ends show the tables that the consumer saw and left. |
| KafkaHandoff.OffsetsMatchStep | adapters/kafka/batch_consumer.go:881-893 | The offsets map set for a batch is exactly the committed position after its step, on its own and on every other polled partition. |
| KafkaHandoff.DerivedTopicsApart | adapters/kafka/topic.go:42-84 | A subscription whose service topics are derived from its source topic always tells its topics apart. |
| Backoff.Delay | adapters/kafka/control.go:163-183 | For every attempt number the doubling loop yields the smaller of the maximum and base times two to the attempt less one, without overflowing 64 bits. |
| Backoff.KafkaDelay | adapters/kafka/control.go:163-183 | Kafka jitter lies between one and the full delay and hits each value for one draw; without randomness it is the full delay. |
| Backoff.NatsDelay | adapters/nats/consumer.go:867-887 | NATS jitter is what the jitter function says of the bounded exponential delay, and a delay that it yields lies between zero and that. |
| Backoff.NatsPanicsExactly | adapters/nats/consumer.go:867-887 | Whatever is drawn, the jitter panics if and only if the maximum is the largest duration and base times two to the attempt less one reaches it. |
| Backoff.NatsPanicsAtLast | adapters/nats/consumer.go:867-887 | With the largest maximum every base runs into the panic, at attempt 64 at the latest. |
| Backoff.NatsPanicExample | adapters/nats/consumer.go:867-887 | A configuration that validation accepts panics at its first retry. |
| Backoff.RetryTier | adapters/kafka/control.go:185-192 | The chosen tier is the first that covers the delay, or the last, and always a valid index. |
| RetryScheduler.RootIsEarliest | adapters/kafka/retry_scheduler.go:28-54 | The root of a heap has the earliest deadline. |
| RetryScheduler.Scheduler.Swap | adapters/kafka/retry_scheduler.go:34-38 | Swapping two items keeps every stored index right and the deadlines unchanged. |
| RetryScheduler.Scheduler.Up | adapters/kafka/retry_scheduler.go:71-87 | Sifting up restores heap order and keeps indexes and deadlines. |
| RetryScheduler.Scheduler.Down | adapters/kafka/retry_scheduler.go:71-87 | Sifting down restores heap order among the first items, or reports that the item has to go up, and keeps indexes and deadlines. |
| RetryScheduler.Scheduler.Pop | adapters/kafka/retry_scheduler.go:46-54 | Exactly the earliest item leaves; order and indexes hold for the rest. |
| RetryScheduler.Scheduler.Schedule | adapters/kafka/retry_scheduler.go:71-87 | Scheduling sets exactly one partition's deadline in the plain map that the heap stands for, and remembers ownership. |
| RetryScheduler.Scheduler.ReleaseDue | adapters/kafka/retry_scheduler.go:96-114 | Exactly the due partitions leave, the owned ones among them are returned once each and sorted per topic, and afterwards a poll at the same instant has a positive timeout. |
| RetryScheduler.SortLists | adapters/kafka/retry_scheduler.go:96-114 | Each topic's partitions come out in increasing order without loss or repetition. |
| KafkaTopology.RaiseIsUpward | adapters/kafka/topology.go:597-622 | A numeric setting is updated if and only if its declared value is strictly stronger in the order in which minus one stands for unlimited. |
| KafkaTopology.PlanTopic | adapters/kafka/topology.go:544-584 | A topic is created if absent, refused on any drift or weakening, updated in exactly the raised settings, and otherwise kept. |
| KafkaTopology.TopicConverges | adapters/kafka/topology.go:544-642 | Planning again after an apply finds nothing left to do. |
| KafkaTopology.Cluster.ApplyTopology | adapters/kafka/topology.go:379-442 | Any conflict in the plan means no change at all; otherwise every declared topic gets its planned change and no other topic is touched. |
| KafkaTopology.TopologyConverges | adapters/kafka/topology.go:379-442 | An applied topology plans to no change for every topic. |
| SubjectPatterns.SubjectPatternCovers | adapters/nats/topology.go:542-564 | The loop over tokens decides the declarative cover relation. |
| SubjectPatterns.CoversIsSound | adapters/nats/topology.go:542-564 | Every concrete subject of the covered pattern is a subject of the covering one. |
| SubjectPatterns.WitnessSeparates | adapters/nats/topology.go:542-564 | A pattern that does not cover another misses a concrete subject of it. |
| SubjectPatterns.CoversExactly | adapters/nats/topology.go:542-564 | For valid patterns over an unbounded token alphabet the token test holds if and only if every concrete subject of one pattern is a subject of the other. |
| SubjectPatterns.IsSubjectSuperset | adapters/nats/topology.go:517-531 | The list check passes if and only if each current subject is covered by a single desired one. |
| SubjectPatterns.ListCheckIsSound | adapters/nats/topology.go:517-531 | What the list check lets through loses no subject. |
| SubjectPatterns.JointCoverWithTail | adapters/nats/topology.go:517-531 | A pattern with a final wildcard is covered by a list jointly if and only if one pattern covers it or the list contains a ladder of stars below a final wildcard; in the second case the check reports a false conflict. |
| SubjectPatterns.JointCoverWithoutTail | adapters/nats/topology.go:517-531 | Without a final wildcard the list check is exact. |
| SubjectPatterns.FalseConflict | adapters/nats/topology.go:517-531 | The smallest list that covers everything jointly and is refused. |
| NatsTopology.LimitsOnlyRise | adapters/nats/topology.go:574-586 | A limit or duration counts as decreased if and only if it drops in the order in which unlimited stands on top. |
| NatsTopology.CompareStream | adapters/nats/topology.go:420-440 | A stream change is a conflict if and only if storage, retention or replicas differ, a subject is not covered or a limit drops; it is a no-op if and only if the managed settings agree up to the order of subjects. |
| NatsTopology.StreamConverges | adapters/nats/topology.go:486-500 | Planning again after an apply finds nothing left to do, and settings outside the topology survive. |
| NatsTopology.NoSubjectLost | adapters/nats/topology.go:420-440 | A change that is let through still routes every subject that was routed to the stream. |
| NatsTopology.CompareConsumer | adapters/nats/topology.go:442-465 | A consumer change is a conflict if and only if what is delivered or how it is acknowledged differs, and an update if and only if nothing but the description does. |
| NatsTopology.Broker.PlanConsumers | adapters/nats/topology.go:346-386 | A consumer is refused if its stream is missing or does not cover its filter, created if absent, and otherwise compared; the shortcut for streams that the same plan creates changes no action. |
| NatsTopology.Broker.ApplyConsumers | adapters/nats/topology.go:190-225 | Every planned consumer gets exactly its planned change, an update keeps what the topology does not manage, and no other consumer is touched. |
| NatsTopology.StreamSubjectsCoverFilter | adapters/nats/topology.go:533-540 | A filter passes if and only if a single subject of its stream covers it. |
| NatsTopology.StaysHoused | adapters/nats/topology.go:190-225 | Applying a topology leaves every consumer, declared or not, on an existing stream. |
| NatsTopology.ConsumerIsServed | adapters/nats/topology.go:319-418 | A declared consumer of an applied topology exists with the declared contract on a stream whose subjects cover its filter, whether the stream is declared in the same topology, just created, or known to the broker only. |
| NatsTopology.TopologyConverges | adapters/nats/topology.go:110-225 | Once applied, a topology plans to no change, for streams as for consumers, serves every consumer it declares, and leaves no consumer without its stream. |
| NatsTopology.Broker.ApplyTopology | adapters/nats/topology.go:110-151 | An invalid topology or a conflict anywhere, of a stream or of a consumer, means no change at all; otherwise every declared stream and consumer gets its planned change and nothing else is touched, planning again finds nothing to do, and every declared consumer exists with its declared contract on a stream that covers its filter. |
| Digests.ReplayDecodes | adapters/nats/replay.go:239-270 | The byte stream hashed for a replayable message determines subject, mode, header lines and payload. |
| Digests.QuarantineDecodes | adapters/nats/quarantine.go:187-213 | The byte stream hashed for a quarantined message determines subject, mode, header lines and payload. |
| Digests.ListedOnce | adapters/nats/quarantine.go:187-207 | There is only one sorted listing of the keys, so that map order does not matter. |
| Digests.SortedKeys | adapters/nats/quarantine.go:192-196 | The keys collected in any order and sorted list every header once. |
| Digests.QuarantineInput | adapters/nats/quarantine.go:187-213 | The stream written field by field is the specified one over the sorted headers. |
| Digests.ReplayInput | adapters/nats/replay.go:239-270 | The stream written field by field is the specified one over the headers sorted by lower-case name. |
| Digests.QuarantineIdentifies | adapters/nats/quarantine.go:187-213 | Equal quarantine streams come from equal subject, mode, headers and payload. |
| Digests.ReplayIdentifies | adapters/nats/replay.go:239-270 | Equal replay streams come from equal subject, mode and payload and from headers that are equal up to the case of their keys. |
| Digests.RejectCaseDuplicates | adapters/nats/replay.go:203-237 | Headers are refused if and only if two keys differ only in case, which is what makes the replay stream unambiguous. |
| NatsHandoff.EntranceWindow | adapters/nats/consumer.go:630-652 | A message reaches the Inbox only within its time bounds; one that is too early is put off until exactly its own time, and a decodable one that is kept out for good has expired. |
| NatsHandoff.ProcessMessage | adapters/nats/consumer.go:608-747 | A single message is acknowledged only with its identity complete and marked for confirmation only with its cycle closed; the dead letter counts the handler attempt or else the broker's deliveries. |
| NatsHandoff.DedupIsSafe | adapters/nats/consumer.go:1057-1070 | Two messages with equal deduplication identifiers have equal content up to the case of header keys, whichever of the two identifier forms they carry. |
| NatsHandoff.JetStream.PublishMsg | adapters/nats/consumer.go:968-1015 | The broker stores a message unless it still remembers its identifier, also when the reply gets lost; the duplicate window is finite, so that it may store a repetition again. |
| NatsHandoff.PublishedIsThere | adapters/nats/consumer.go:968-1015 | A publication that the broker took leaves the content of the message in the stream, whether stored now or taken for a repetition: deduplication never drops a message for another one. |
| NatsHandoff.PublishLetter | adapters/nats/consumer.go:968-1015 | Publishing until the broker confirms is a run of the machine, adds only copies of this message, at most one if the broker remembers, and success leaves its content in the stream. |
| NatsHandoff.DeadLetterAndAcknowledge | adapters/nats/consumer.go:968-1043 | A message is acknowledged only after its content is in the dead-letter stream, success means both were confirmed, only copies of it are added, at most one if the broker remembers, and all of it is a run of the machine. |
| NatsHandoff.StepIsSafe | adapters/nats/consumer.go:663-726 | Every single step of a worker, the broker or the Inbox keeps hand-off safety. |
| NatsHandoff.EveryRunIsSafe | adapters/nats/consumer.go:663-726 | In every reachable world, also in the middle of a hand-off and with any number of workers, lost replies, expired duplicate windows and crashes, an acknowledged message was effected with its own content or is in the dead-letter stream. |
| NatsHandoff.LeadsSafe | adapters/nats/consumer.go:663-726 | Whatever a run of steps leads to is as safe as where it began, so that methods shown to be runs inherit the guarantee. |
| NatsHandoff.EveryRunIsBacked | adapters/nats/consumer.go:718-723 | In every reachable world each confirmation names a cycle whose message is in the dead-letter stream. |
| NatsHandoff.ClosedIsProtected | adapters/inbox/internal/terminalstate/retention.go:79-185 | In every reachable world a closed cycle still has its terminal row or its message is in the dead-letter stream. |
| NatsBatch.HasConflict | adapters/nats/batch_consumer.go:438-453 | A delivery is turned away if and only if the batch holds the same logical message under another generation. |
| NatsBatch.CollectNatsBatch | adapters/nats/batch_consumer.go:363-436 | Every fetched delivery is in the batch or goes back to the broker, both in fetch order; the batch never mixes generations, keeps to the message limit and exceeds the byte limit only if its first message alone does. |
| NatsBatch.GatheredIsUniform | adapters/nats/batch_consumer.go:438-453 | Collection rules out the batches that the Inbox refuses as mixed. |
| NatsBatch.ProcessNatsBatch | adapters/nats/batch_consumer.go:490-716 | Every delivery of a batch gets exactly one fate that the tables back up; an unusable handler answer writes nothing. |
| NatsFinish.FinishOthers | adapters/nats/batch_consumer.go:830-865 | Only completed messages are acknowledged here, each whose acknowledgement is confirmed is, and all of it is a run of the machine. |
| NatsFinish.FinishDead | adapters/nats/batch_consumer.go:867-905 | The content of each dead message is in the stream before it is acknowledged, only the batch's own dead letters are published, only closed cycles with a durable dead letter are collected for confirmation, and all of it is a run of the machine. |
| NatsFinish.FinalizeBatch | adapters/nats/batch_consumer.go:757-941 | Finishing a batch is a run of the hand-off machine that ends in the state of broker and Inbox: a newly acknowledged message was completed or its content is in the dead-letter stream, a message to be retried stays with the broker, and exactly cycles whose content is in the stream are confirmed, all of them if time suffices. |
| NatsFinish.ConfirmsPath | adapters/nats/batch_consumer.go:906-941 | Confirming the cycles of handed-over messages one by one is a run of the machine that ends in the tables with exactly those confirmed. |
| NatsFinish.DecisionIsRun | adapters/nats/batch_consumer.go:490-716 | A fetched and decided batch is a run of the machine, the calls of its Inbox transaction and one decision per delivery, that ends where finishing begins. |
| Lifecycle.RunSectionOk | runtime.go:99-221 | Every critical section of Run keeps the invariant and moves the shared fields only forward. |
| Lifecycle.ShutSectionOk | runtime.go:426-475 | Every critical section of Shutdown keeps the invariant and moves the shared fields only forward. |
| Lifecycle.DrainSectionOk | runtime.go:377-402 | Every critical section of beginDrain keeps the invariant and moves the shared fields only forward. |
| Lifecycle.StepKeepsInv | runtime.go:99-533 | A step of one thread keeps the invariant for the positions of all threads. |
| Lifecycle.EveryRunKeepsInv | runtime.go:99-533 | The invariant holds after every step of every interleaving of any number of Run, Shutdown and drain calls. |
| Lifecycle.RunsMoveForward | runtime.go:377-533 | Over a whole run the state never moves back, closed is absorbing, both channels are closed at most once, and ownership and the final error never change once set. |
| Lifecycle.ObserversAgree | runtime.go:426-475 | At most one thread ever owns closing, and all callers that observe the closure read the same error, the owner's. |

## Left out

- SQL text, statement chunking, isolation levels, lock managers and migrations: a transaction is atomic and a statement is its effect on the rows.
- Driver and network errors in the middle of a transaction, other than that the transaction does not commit.
- Column values created_at and updated_at, and several clock readings within one transaction.
- SHA-256: attempt fingerprints are an injective datatype, and deduplication identifiers carry the hashed byte stream in place of its hash.
- NatsHandoff.DedupIsSafe: is stated for one consumer; the consumer name that is hashed into the identifier as well is not modelled.
- RFC 3339 time text is one injective print and its parse.
- KafkaControl.RoundTrip: lower-cases only what lowers to ASCII, which is what equality with a reserved header name can see; texts are byte strings.
- Validation of keys and prune bounds for blanks and ranges, and the tie-break order among equally old completed identities.
- InboxSqlite.Backend.PruneCompleted: takes the identities that its subquery selects as a parameter, constrained to be the oldest completed ones before the cutoff.
- InboxSqlite.Backend.PruneTerminalAttempts: takes the candidate list as a parameter and puts no condition on it, because the real one may be stale.
- InboxBatchStore.ProcessBatch: reports mixed consumers and mixed generations as one rejection.
- Attempt counters are unbounded natural numbers.
- KafkaBatch.Collect: assumes the session contract that records of a partition are polled in increasing offset order.
- KafkaHandoff.ConsumerTakesStep: assumes the session contract that a session polls consecutive records from its committed offset and that nobody else moves that offset meanwhile, and that production and offset commit are atomic.
- The Kafka poll watchdog, rebalancing, fencing and the pacing of top-level retries; the backoff of a retry is a parameter.
- RetryScheduler.Scheduler.Schedule: represents a partition's heap item object by its entry in the index map; sifting is the standard library's heap.
- NatsFinish.FinalizeBatch: runs the parallel acknowledgement workers one after another, and does not model the fields of the dead-letter record besides the message.
- Heartbeats, pull errors and the waiting between hand-off retries in NATS consumers; giving up is the end of a list of broker replies.
- Digests.RejectCaseDuplicates: models only the rejection of keys that differ in case; count, byte and character limits of replay headers, and lower-casing to letters outside ASCII, are left out.
- Quarantine records whose original message is omitted for its size.
- KafkaTopology.Cluster.ApplyTopology: does not model a broker failure midway through applying, nor the family validation that runs before planning.
- NatsTopology.Broker.ApplyTopology: does not model a broker failure midway through applying, nor a change by others between planning and applying; a broker is required to keep consumers only on existing streams.
- Lifecycle.EveryRunKeepsInv: is about safety; that a shutdown finally returns, and drains called from inside a drain, are not modelled.
- Outbox, CloudEvents mapping, envelope encoding, middleware, observers, logging, panics, metrics, tracing, command-line tools and examples.
