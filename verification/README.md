# GrainGuard: verified protocols

GrainGuard ingests telemetry from devices, keeps a read model of it, provisions devices against a
tenant's quota and bills tenants through Stripe. Its services meet in Postgres tables, Kafka topics,
RabbitMQ queues and Redis keys, and each of them may fail, repeat or overtake the others. This project
models those meetings in Dafny and proves what they keep over whole runs.

`dafny verify dfyconfig.toml` checks everything.

## Modules

Telemetry read model and versioned cache

- `TelemetryModel`, `BatchProjection`: one batch as a function of the tables, the one-at-a-time upsert
  as its reference, and runs of deliveries.
- `ReadModelTransactions`, `Deadlock`: batch transactions interleaved statement by statement, with claims
  and row locks held until commit; serializability, exactly when they deadlock, and progress.
- `TelemetryMessages`: which payloads become events, and that the tables hold what was sent.
- `VersionedCache`, `GatewayAnswers`, `DeviceQuery`: workers' pipelines and gateway requests on the same
  Redis keys, call by call; where the answers come from; the gateway's query as a program.
- `TelemetryProjection`: the batch handler as a program, loop by loop.

Device provisioning

- `DeviceEvents`, `SagaMessages`: outbox record, envelope and topic JSON; commands, retries and replies.
- `SagaModel`, `SagaServices`: orchestrator, asset registry and recovery, as functions and as programs.
- `Completion`: the registry's verdicts, and continuations that complete or compensate.
- `Recovery`, `Draining`: what recovery alone can achieve, and why orchestrator and registry come to rest.
- `Provisioning`, `DeviceRegistration`: the closed system of create transactions, relay, workers,
  registry, recovery, deletions and plan changes.
- `Outbox`: any number of relay workers, and the progress of one.

Billing

- `Plans`, `Reconcile`: the limit in three services, and device flags by age rank.
- `Billing`, `BillingOutcomes`, `StripeWorker`, `StripeQueue`: webhook events over both rows and the flags,
  what each of them leaves, the worker's transaction, and the queue with its retries.

Guards

- `RateLimiter`, `LookupCache`, `Dedupe`.

Streaming and paging

- `Text`, `ChunkedDecoding`, `Utf8`, `FlatJson`: splitting, decoding in chunks, UTF-8, progress objects.
- `CsvUpload`, `CsvTables`, `ProgressStream`, `BulkImport`, `ImportScreen`: the upload, the event stream, the
  import between them and what the dashboard shows of it.
- `CursorPaging`: following endCursor.

`Wrappers` and `Collections` hold optional values, bags, set sizes, rounded quotients and reading with gaps.

## What the proofs rest on

- SQL transactions are atomic, except where `ReadModelTransactions` and `Outbox` take them apart into
  statements under row locks. The Stripe channel has a prefetch of one, so its transactions do not overlap.
- `event_id` is the primary key of the history table, and the claim table is used by this handler only.
- The claim statement casts every id text of the batch, and the two tenant columns accept the same texts;
  which texts they accept is an input. The service owns the tables, so that row policies do not apply, and
  a batch fits into the parameters of one statement.
- A topic is the set of messages ever published (`Provisioning`) or a bag of undelivered ones
  (`Draining`); deliveries pick any of them.
- The calls of saga handlers, gateway requests and reservations may work, fail, or fail after they took
  effect; a transaction commits, rolls back, or commits with its acknowledgement lost. Clocks, generated
  ids, outcomes and tokens are inputs of the steps. Generated device ids are new.
- Times have one resolution, except in `CursorPaging`, where it is the point. Readings are opaque reals.
- Redis keys are named by what they are made of: device, version, tenant, serial.
- `RateLimiter`: pipelines are atomic, clocks do not run backwards, members are distinct, and all limiters
  share the window of 60 seconds, as the four in the source do.
- `LookupCache`: a lookup is one step and pods share a clock. `Dedupe`: a write that reports failure wrote
  nothing. `StripeQueue`: neither worker nor broker crashes.

## What the code does not do

These are results: each has a lemma with a concrete case or an exact condition.

- An event id in a spelling that the database accepts but does not print is claimed but its reading is
  dropped, and a correct redelivery is dropped too (`SpellingCanLoseReading`, `ClaimsEqualHistoryIff`).
- One tenant text that is no uuid, or one id text that only the service's parser accepts, rolls the whole
  batch back at every delivery (`OneBadTextRefusesTheBatch`, `RefusedRollsBackUntilClaimed`).
- Concurrent batches that share event ids can deadlock on their claims (`SharedIdsCanDeadlock`), exactly
  when their claims can cross (`DeadlockIffCrossing`); sorted ids never do.
- Recovery's retries of the quota and detach steps carry no tenant and the registry rejects them. Recovery
  helps a saga exactly at the attach step (`RecoveryHelpsIff`); a saga stuck later (`AStuckSaga`) waits for a
  redelivery of the original command, which is answered (`OriginalIsAnsweredIff`, `RedeliveryCompletes`).
- Ten undecodable outbox rows older than a decodable one block it for ever (`TenAndOneNeverDrain`,
  `DrainsIffFewInTheWay`).
- A deduplication key that expires while its offset is held or after it was handed over lets the offset
  through again (`ExpiredWhileHeld`, `ExpiryIsSafeIffIdle`).
- The CSV upload decodes each chunk on its own, so a character cut in two is lost (`SplitAccent`,
  `DecodedIffWhole`), and its last line keeps carriage returns that other lines lose
  (`CarriageReturnInLastLine`, `TrailingNewline`).
- The cursor holds milliseconds and the rows microseconds, so rows that share a millisecond across a page
  boundary are skipped (`WalkIsCompleteIff`).

## Model

| member | source | states |
|---|---|---|
| TelemetryModel.MatchingMembers | apps/read-model-builder/internal/projection/telemetry_projection.go:320-325 | An event passes the filter if and only if it is in the batch, its id was returned as newly claimed and its id is spelled canonically. |
| TelemetryModel.MatchingInOrder | apps/read-model-builder/internal/projection/telemetry_projection.go:320-325 | The filter keeps the order of the batch. |
| TelemetryModel.KeepLatestDevices | apps/read-model-builder/internal/projection/telemetry_projection.go:333-339 | The kept map has exactly the devices of the events, each with an event of that device. |
| TelemetryModel.KeepLatestIsLastNewest | apps/read-model-builder/internal/projection/telemetry_projection.go:333-339 | The kept event is the last of the newest events of its device, found at an explicit position. |
| BatchProjection.BulkReadsLikeSequence | apps/read-model-builder/internal/projection/telemetry_projection.go:333-376 | Keep-latest plus one bulk upsert leaves every device the reading that applying the events one by one leaves, ties included. |
| BatchProjection.BulkVersions | apps/read-model-builder/internal/projection/telemetry_projection.go:359-376 | A first row has version 1; an existing row gains exactly one if some event is at least as new, and otherwise the whole row stays. |
| BatchProjection.BulkReading | apps/read-model-builder/internal/projection/telemetry_projection.go:333-376 | The last newest event of a device wins unless the stored row is strictly newer. |
| BatchProjection.BatchRefinesSequence | apps/read-model-builder/internal/projection/telemetry_projection.go:320-427 | A committed batch refines the one-at-a-time reference: same devices and readings, history grows by exactly the new events, versions move exactly when overwritten. |
| BatchProjection.RollsBackIffRefused | apps/read-model-builder/internal/projection/telemetry_projection.go:293-427 | The transaction rolls back if and only if the database cannot cast some id of the batch, or an unclaimed canonical event has a tenant that is no uuid, or an unclaimed id occurs twice in canonical spelling. |
| BatchProjection.OneBadTextRefusesTheBatch | apps/read-model-builder/internal/projection/telemetry_projection.go:298-311 | Concrete inputs: a good event commits alone and rolls back beside one with the tenant abc or beside an id in urn form. |
| BatchProjection.BatchKeepsProjection | apps/read-model-builder/internal/projection/telemetry_projection.go:293-432 | One batch keeps the projection invariant: history ids claimed and unique, latest time the maximum over history, latest reading taken from a history row. |
| BatchProjection.ClaimsWithoutHistory | apps/read-model-builder/internal/projection/telemetry_projection.go:298-325 | Exactly which claims have no history row: a committed batch adds its new ids in a castable but not canonical spelling and nothing ever leaves them. |
| BatchProjection.SpellingCanLoseReading | apps/read-model-builder/internal/projection/telemetry_projection.go:320-325 | A concrete id in capitals: claimed, dropped by the text comparison, and dropped again when redelivered correctly. |
| BatchProjection.ReplayIsNoop | apps/read-model-builder/internal/projection/telemetry_projection.go:293-331 | A batch whose ids are all claimed changes no table, and commits if and only if its ids can be cast. |
| BatchProjection.RunsStayProjected | apps/read-model-builder/internal/projection/telemetry_projection.go:284-432 | Over every sequence of deliveries with rollbacks, repetitions and lost acknowledgements the tables stay an exactly-once image of the accepted events. |
| BatchProjection.ClaimsEqualHistoryIff | apps/read-model-builder/internal/projection/telemetry_projection.go:284-432 | After every run the claims without a history row are exactly the ids that committed deliveries dropped; claimed ids equal history ids if and only if none was dropped. |
| BatchProjection.ClaimsEqualHistory | apps/read-model-builder/internal/projection/telemetry_projection.go:293-427 | With canonical ids the claimed ids equal the history ids after every run. |
| BatchProjection.ReplayAfterCommit | apps/read-model-builder/internal/projection/telemetry_projection.go:293-331 | Replaying a committed batch after any further deliveries changes nothing. |
| ReadModelTransactions.StepKeepsInv | apps/read-model-builder/internal/projection/telemetry_projection.go:284-432 | Every statement of every concurrent transaction keeps claims decided, locked rows current and holdings exclusive. |
| ReadModelTransactions.CommitIsAtomic | apps/read-model-builder/internal/projection/telemetry_projection.go:293-432 | A commit of an interleaved transaction has the effect of its whole batch run alone at that moment. |
| ReadModelTransactions.RunsAreSerializable | apps/read-model-builder/internal/projection/telemetry_projection.go:284-432 | Every interleaved run leaves the tables of the serial run of its committed batches, in commit order. |
| ReadModelTransactions.ConcurrentRunsStayProjected | apps/read-model-builder/internal/projection/telemetry_projection.go:284-432 | The exactly-once projection holds in every state that any number of concurrent workers can reach. |
| ReadModelTransactions.CyclesAreClaimCycles | apps/read-model-builder/internal/projection/telemetry_projection.go:340-376 | In a reachable state a cycle of waits consists of claim waits only: rows locked in sorted order never close one, alone or mixed with claims. |
| ReadModelTransactions.NoDeadlock | apps/read-model-builder/internal/projection/telemetry_projection.go:340-376 | With pairwise disjoint event ids no state of the invariant has a cycle of waits. |
| ReadModelTransactions.NoDeadlockInRuns | apps/read-model-builder/internal/projection/telemetry_projection.go:340-376 | The same for every reachable state of every run. |
| ReadModelTransactions.SharedIdsCanDeadlock | apps/read-model-builder/internal/projection/telemetry_projection.go:298-318 | A concrete run: two batches with castable ids 1, 2 and 2, 1 reach a cycle. |
| Deadlock.DeadlockIffCrossing | apps/read-model-builder/internal/projection/telemetry_projection.go:293-376 | Transactions over a set of batches can reach a cycle of waits if and only if, after some of the batches have committed, some of them can be stopped, at ids that can be cast, with disjoint new ids so that each wants an id of the next. |
| Deadlock.SortedIdsNeverDeadlock | apps/read-model-builder/internal/projection/telemetry_projection.go:293-318 | Batches that list their ids in ascending order never deadlock, however many ids they share. |
| Deadlock.SerialRunsAreRuns | apps/read-model-builder/internal/projection/telemetry_projection.go:284-432 | Every serial sequence of committed batches is the outcome of a run of transactions: the converse of serializability. |
| Deadlock.CycleOrProgress | apps/read-model-builder/internal/projection/telemetry_projection.go:284-432 | In every reachable state with a live transaction there is a cycle of waits or a transaction that waits for nobody and has an enabled next statement; it is a rollback if and only if the statement it is at fails, and then its batch is one that RollsBackIffRefused refuses. |
| Deadlock.OthersDoNotFail | apps/read-model-builder/internal/projection/telemetry_projection.go:298-432 | A transaction whose next statement fails can do nothing but roll back. |
| BatchProjection.RefusedRollsBackUntilClaimed | apps/read-model-builder/internal/projection/telemetry_projection.go:293-432 | After every run a batch rolls back if and only if it is refused, and sending it again any number of times then changes nothing; with castable ids that are all claimed it goes through. |
| VersionedCache.RowsAdvance | apps/read-model-builder/internal/projection/telemetry_projection.go:359-376 | Between any two states of a run a stored row stays the same or gives way to a row of greater version. |
| VersionedCache.VersionNamesOneRow | apps/read-model-builder/internal/projection/telemetry_projection.go:359-376 | A device and a version name one row over the whole run. |
| VersionedCache.CommitCommandsOk | apps/read-model-builder/internal/projection/telemetry_projection.go:434-462 | What a commit hands to the pipeline describes rows it has just committed. |
| VersionedCache.CacheIsCoherent | apps/read-model-builder/internal/projection/telemetry_projection.go:434-466 | In every state of every run, everything cached, in a pipeline or held by a request was committed before. |
| VersionedCache.CachedValueIsTheCommittedRow | apps/read-model-builder/internal/projection/telemetry_projection.go:449-461 | The value under device D and version N is the one row ever committed for D at version N. |
| VersionedCache.CachedVersionExists | apps/read-model-builder/internal/projection/telemetry_projection.go:449-461 | A cached version was really committed at an earlier point of the run. |
| VersionedCache.AnswersAreCommittedRows | apps/gateway/src/services/device-query.ts:20-162 | Every answer of the gateway, hit, refill or fallback, is a whole committed row of the device, never a mix. |
| VersionedCache.GatewayKeepsCoherence | apps/gateway/src/services/device-query.ts:30-142 | Each call of a gateway request, refill included, keeps the cache coherent. |
| GatewayAnswers.EndingHasItsOrigin | apps/gateway/src/services/device-query.ts:20-182 | Over runs, whatever a request ends with was decided by one of its own calls since it arrived: a value found in Redis, or its query, which gives the stored row, none if there is none, or its error. |
| GatewayAnswers.NoneMeansNoRow | apps/gateway/src/services/device-query.ts:109-125 | A request ends with none only if the device had no row at one of its calls; a device that has a row when the request arrives is never answered with none. |
| GatewayAnswers.DatabaseAnswerIsCurrent | apps/gateway/src/services/device-query.ts:164-182 | An answer that is not from Redis is the row stored at the moment of the query and at least as new as the row at the arrival. |
| GatewayAnswers.CommitSendsEveryChange | apps/read-model-builder/internal/projection/telemetry_projection.go:434-462 | For every row that a commit inserts or overwrites, the pipeline holds the row and the pointer to it. |
| GatewayAnswers.CommittedRowIsServed | apps/gateway/src/services/device-query.ts:28-46 | In every run, once the two commands of a committed row have been executed, a new request answers that row with two calls to Redis. |
| GatewayAnswers.OwnerWritesBoth | apps/gateway/src/services/device-query.ts:120-134 | The lock owner stores the row it read and the pointer to it. |
| GatewayAnswers.OneOwnerAtATime | apps/gateway/src/services/device-query.ts:59-77 | As long as its lock does not expire, at most one request refills the keys of a device at a time. |
| GatewayAnswers.OthersKeepTheLock | apps/gateway/src/services/device-query.ts:143-161 | Expired or not, nobody but its owner takes a lock away. |
| GatewayAnswers.QueriesAfterWaiting | apps/gateway/src/services/device-query.ts:79-114 | A request whose calls work queries the database as the lock owner, or after at least ten looks at Redis. |
| DeviceQuery.Query.GetDeviceLatestTelemetry | apps/gateway/src/services/device-query.ts:20-162 | The query makes at most 27 calls, each the next call of the protocol in the state it meets, and ends with a value that one of them found in Redis or with the result of its database query: the stored row, none if there is none, or an error. |
| DeviceQuery.Query.ReadPointer | apps/gateway/src/services/device-query.ts:34-36 | Reading the pointer, before the lock or in the wait loop, leads to the next call of the protocol. |
| DeviceQuery.Query.ReadData | apps/gateway/src/services/device-query.ts:37-44 | A hit answers; a miss goes on to the lock or to the next turn; a failure in the loop goes to the database. |
| DeviceQuery.Query.TakeLock | apps/gateway/src/services/device-query.ts:62-77 | Some token exactly if the lock is taken and reported so; a lock taken but reported as an error sends the request to the database without it. |
| DeviceQuery.Query.WaitForOwner | apps/gateway/src/services/device-query.ts:82-114 | At most ten turns; ends with a cached answer or at the database query. |
| DeviceQuery.Query.QueryDb | apps/gateway/src/services/device-query.ts:167-182 | Ends with the stored row column by column, with none exactly if there is none, or with an error exactly if the query throws; the lock owner goes on to refill, or to release. |
| DeviceQuery.Query.Refill | apps/gateway/src/services/device-query.ts:126-140 | The value is stored before the pointer, and an error skips the rest. |
| DeviceQuery.Query.Unlock | apps/gateway/src/services/device-query.ts:143-161 | The lock is deleted only while it carries this request's value. |
| TelemetryMessages.DecodedIffRecorded | apps/read-model-builder/internal/projection/telemetry_projection.go:219-275 | A payload becomes an event if and only if type, id, device, time and tenant are usable, and the event is the content of the message: id with its spelling, device from the data or else the aggregate, tenant, time, temperature and humidity, 0 where one is absent. |
| TelemetryMessages.DecodedInOrder | apps/read-model-builder/internal/projection/telemetry_projection.go:216-276 | The parsed batch is the recorded events in the order of the payloads, and every payload left out records none. |
| TelemetryMessages.RowsAreAsSent | apps/read-model-builder/internal/projection/telemetry_projection.go:254-376 | After a committed batch every latest row is the one of before or holds tenant, time, temperature and humidity of a message of the batch for that device. |
| TelemetryMessages.OneMessageIsStored | apps/read-model-builder/internal/projection/telemetry_projection.go:216-427 | One new message on its own is claimed, copied to history and stored with exactly its values, with version 1 or the next one, unless the stored reading is newer. |
| TelemetryProjection.ParseBatch | apps/read-model-builder/internal/projection/telemetry_projection.go:216-274 | The loop keeps exactly the decodable payloads, decoded, in order. |
| TelemetryProjection.ClaimIds | apps/read-model-builder/internal/projection/telemetry_projection.go:293-318 | Fails if and only if an id cannot be cast; otherwise returns exactly the ids that were not claimed before. |
| TelemetryProjection.KeepReturned | apps/read-model-builder/internal/projection/telemetry_projection.go:320-325 | The filtered events are those whose id text was returned. |
| TelemetryProjection.Deduplicate | apps/read-model-builder/internal/projection/telemetry_projection.go:333-339 | The map loop computes the kept event per device. |
| TelemetryProjection.SortByDevice | apps/read-model-builder/internal/projection/telemetry_projection.go:340-346 | The kept events in strictly ascending device order, one per device. |
| TelemetryProjection.UpsertRows | apps/read-model-builder/internal/projection/telemetry_projection.go:348-397 | Fails if and only if a tenant does not fit; otherwise computes the upserted rows and the returned versions row by row. |
| TelemetryProjection.UpsertedIsBulk | apps/read-model-builder/internal/projection/telemetry_projection.go:348-376 | Applying the sorted kept events one by one equals the bulk upsert, because the rows do not see each other. |
| TelemetryProjection.ReturnedExactly | apps/read-model-builder/internal/projection/telemetry_projection.go:371-392 | A version is returned for exactly the events that inserted or overwrote their row. |
| TelemetryProjection.CopyHistory | apps/read-model-builder/internal/projection/telemetry_projection.go:399-427 | The copy succeeds if and only if every tenant fits and the primary key allows it, and then adds exactly these rows. |
| TelemetryProjection.FillPipeline | apps/read-model-builder/internal/projection/telemetry_projection.go:434-462 | The pipeline holds exactly the value and pointer of every returned version. |
| TelemetryProjection.SentAreCacheCommands | apps/read-model-builder/internal/projection/telemetry_projection.go:434-462 | The filled pipeline is the command set the cache protocol reasons about. |
| TelemetryProjection.Statements | apps/read-model-builder/internal/projection/telemetry_projection.go:293-432 | The statements in their order all succeed if and only if the batch as one step commits, and leave its tables. |
| TelemetryProjection.ReadModel.HandleTelemetryBatch | apps/read-model-builder/internal/projection/telemetry_projection.go:209-473 | The handler applies the batch to the tables as one step, or leaves them unchanged and reports failure; every row is then as before or as some message sent it, a single new message of a new device exactly so; on success it sends the cache commands of that commit. |
| DeviceEvents.CreatedSurvivesRelay | apps/telemetry-service/internal/application/create_device.go:73-83 | Outbox record, relay decoding, topic text and orchestrator parsing composed keep device, tenant, serial and creation time. |
| SagaModel.CreatedRowStartsSaga | apps/saga-orchestrator/internal/orchestrator/provision_saga.go:31-77 | The row of a create transaction reaches the saga handler as the creation of that device, with the device as correlation id. |
| SagaModel.PublishedIff | apps/saga-orchestrator/internal/orchestrator/provision_saga.go:31-205 | An attempt publishes at most one command, and a command if and only if its event calls for it, the event meets its saga (a creation none), the calls before work and the publication does not fail. |
| SagaModel.WorkingAttempt | apps/saga-orchestrator/internal/orchestrator/provision_saga.go:31-205 | With working calls each event leaves its saga at its step: in progress/attached, in progress/quota, completed/quota, compensating/attached, failed/created; device and tenant stay, other sagas too; a repeated creation changes nothing, an event without its saga fails. |
| SagaModel.PublishingEnds | apps/saga-orchestrator/internal/orchestrator/provision_saga.go:117-146 | After the publication: the row is updated if the publication worked and marked failed otherwise, each surviving its own failure. |
| Provisioning.ActionKeepsCausal | apps/saga-orchestrator/internal/orchestrator/provision_saga.go:31-205 | Every action of the closed system keeps every event, command, saga row, worker and stuck row caused. |
| Provisioning.RunsAreCausal | apps/saga-orchestrator/internal/orchestrator/provision_saga.go:31-205 | Every state of every run is causal. |
| Provisioning.SagaCausality | apps/saga-orchestrator/internal/orchestrator/provision_saga.go:78-205 | Only eight (status, step) pairs occur; each non-initial live one implies that its command was published. |
| Provisioning.CompletionHasItsChain | apps/saga-orchestrator/internal/orchestrator/provision_saga.go:149-161 | A completed saga has its grant, the allocate and attach commands, the creation event and the outbox row behind it. |
| Provisioning.RecoveryOnlyRepeats | apps/saga-orchestrator/internal/recovery/recovery_worker.go:115-160 | A recovery tick only issues a command kind already issued for that correlation id. |
| Provisioning.DetachedIsGone | apps/asset-registry/internal/application/handler.go:185-204 | Once a detach was reported the device does not exist and never comes back. |
| Provisioning.QuotaSafety | apps/asset-registry/internal/application/handler.go:135-183 | While the limit of a tenant stays finite and at most L, its granted devices that still exist never number more than L, in any interleaving. |
| Completion.GrantedIffWithin | apps/asset-registry/internal/application/handler.go:135-183 | For a tenant with a plan the registry grants if and only if its devices, the new one counted, are within the limit that it computes from the row, and reports the failure otherwise. |
| Completion.AdmittedIffGranted | apps/gateway/src/services/planEnforcement.ts:60-93 | A new device is granted its quota by the registry if and only if the gateway check admitted it before it was created. |
| Completion.AttachReportsTheStoredTenant | apps/asset-registry/internal/application/handler.go:103-133 | The reply to an attach names the stored tenant, whatever the command names, and there is one if and only if the device exists. |
| Completion.DetachTakesOnlyItsDevice | apps/asset-registry/internal/application/handler.go:185-204 | A detach removes the named device of the named tenant and nothing else; no other command removes a device. |
| Completion.CallsAreAttempt | apps/saga-orchestrator/internal/orchestrator/provision_saga.go:31-205 | The calls of one worker with nobody in between have the effect of one attempt, for every combination of outcomes. |
| Completion.FailedQuotaIsCompensated | apps/saga-orchestrator/internal/orchestrator/provision_saga.go:160-205 | From every reachable state with a failed quota and its saga, some continuation removes the device and leaves the saga failed. |
| Completion.NewDeviceEnds | apps/saga-orchestrator/internal/orchestrator/provision_saga.go:31-205 | From every reachable state a new device that the gateway admits can be brought to a granted quota and a completed saga; one that it would refuse ends detached with a failed saga. |
| Completion.QuotaCanBeUsedUp | apps/asset-registry/internal/application/handler.go:163-183 | The bound of QuotaSafety is met: for every limit some run within it ends with exactly that many granted devices. |
| SagaMessages.WireKeepsTheExchange | apps/asset-registry/internal/kafka/command_consumer.go:45-67 | What the orchestrator hears after publishing the bytes of a command, or recovery those of a retry, is exactly the reply of the registry to that command, or nothing. |
| SagaMessages.CommandArrives | apps/saga-orchestrator/internal/orchestrator/provision_saga.go:78-84 | The bytes of every command read back as that command. |
| SagaMessages.RetryArrives | apps/saga-orchestrator/internal/recovery/recovery_worker.go:126-160 | The bytes of a retry read back as the retry command of the row; the tenant field it lacks reads as the empty tenant. |
| SagaMessages.ReplyArrives | apps/asset-registry/internal/kafka/event_publisher.go:26-36 | Every reply of the registry, printed, parsed and routed, is that event; an empty correlation id falls back to the device. |
| Recovery.RecoveryHelpsIff | apps/saga-orchestrator/internal/recovery/recovery_worker.go:115-160 | Some sequence of recovery ticks and handlings of the commands they issue gets an answer of the registry if and only if the saga stands at the attach step and its device exists. |
| Recovery.RecoveryAloneKeeps | apps/saga-orchestrator/internal/recovery/recovery_worker.go:58-160 | Over every such sequence devices, saga rows, events and grants stay unchanged, and so do the replies unless the saga stands at the attach step with its device alive. |
| Recovery.OriginalIsAnsweredIff | apps/asset-registry/internal/kafka/command_consumer.go:45-73 | In every run a saga past the attach step has its original command, with its tenant, on the topic; a redelivered detach is always answered, a redelivered quota command if and only if the plan of the tenant is found. |
| Recovery.RedeliveryCompletes | apps/asset-registry/internal/kafka/command_consumer.go:45-73 | From the stuck saga of AStuckSaga, one more delivery of the original quota command leads to completion. |
| Recovery.AStuckSaga | apps/saga-orchestrator/internal/recovery/recovery_worker.go:115-160 | A concrete run ends in a saga waiting for its quota, with device and plan in place, that recovery alone can never get an answer for. |
| Draining.StepDrains | apps/saga-orchestrator/internal/consumer/kafka_consumer.go:151-184 | Every call of every worker in every attempt, every retry and every handling of a command makes the weighted sum smaller. |
| Draining.RunsDrain | apps/saga-orchestrator/internal/consumer/kafka_consumer.go:151-184 | Without recovery and redelivery a run of interleaved workers and registry is no longer than the weight it starts with. |
| SagaServices.Orchestrator.PublishAndUpdate | apps/saga-orchestrator/internal/orchestrator/provision_saga.go:117-146 | Publish then update, or mark failed, as the attempt function says for every combination of outcomes. |
| SagaServices.Orchestrator.HandleEvent | apps/saga-orchestrator/internal/orchestrator/provision_saga.go:31-205 | One attempt of the handler has the effect, the commands and the success of the attempt function; with working calls the saga reaches the step of the event and exactly its command is published. |
| SagaServices.Orchestrator.Consume | apps/saga-orchestrator/internal/consumer/kafka_consumer.go:151-184 | Up to three attempts, stopping at the first success; the event is dead-lettered exactly if all fail; an attempt that works after failed lookups handles it, and three failed lookups change nothing else. |
| SagaServices.AssetRegistry.CountDevices | apps/asset-registry/internal/application/handler.go:135-183 | Counts exactly the devices of the tenant. |
| SagaServices.AssetRegistry.Handle | apps/asset-registry/internal/application/handler.go:103-204 | One command changes devices and publishes the reply that the reply function gives; a quota command is granted if and only if the count is within the limit; errors publish nothing. |
| SagaServices.Recover | apps/saga-orchestrator/internal/recovery/recovery_worker.go:58-113 | The commands issued are exactly those of rows in progress or compensating for more than five minutes. |
| DeviceRegistration.DeviceStore.FindBySerial | apps/telemetry-service/internal/repository/postgres_device_repository.go:34-51 | Finds a device of the tenant with the serial if there is one. |
| DeviceRegistration.DeviceStore.Execute | apps/telemetry-service/internal/application/create_device.go:32-92 | Device row and outbox row appear together or not at all; the id is new exactly if the serial was not taken. |
| Outbox.ActionKeepsInv | apps/telemetry-service/internal/worker/outbox_worker.go:264-372 | Every statement of every worker keeps published rows on the topic and no row in two hands. |
| Outbox.PublishedRowsAreInKafka | apps/telemetry-service/internal/worker/outbox_worker.go:264-372 | For any number of workers and any failures, a row whose mark is committed has its message in Kafka. |
| Outbox.DrainsWithinBound | apps/telemetry-service/internal/worker/outbox_worker.go:264-372 | With k < 10 undecodable rows older than the youngest of the n decodable ones, ceil(n / (10 - k)) batches publish all n. |
| Outbox.DrainsDespiteArrivals | apps/telemetry-service/internal/worker/outbox_worker.go:264-372 | The bound holds for the rows waiting at the start whatever rows arrive between the batches. |
| Outbox.TenAndOneNeverDrain | apps/telemetry-service/internal/worker/outbox_worker.go:281-330 | A concrete table: ten undecodable rows and a decodable one that is never published. |
| Outbox.TenInTheWayBlock | apps/telemetry-service/internal/worker/outbox_worker.go:281-330 | Ten undecodable rows in the way stay there and block a decodable row for ever. |
| Outbox.DrainsIffFewInTheWay | apps/telemetry-service/internal/worker/outbox_worker.go:264-372 | All decodable rows are published sooner or later if and only if fewer than ten undecodable rows are older than the youngest of them. |
| Outbox.RelayedIsBatch | apps/telemetry-service/internal/worker/outbox_worker.go:264-372 | The table after a committed batch has the queue that the batch function predicts. |
| Outbox.OutboxWorker.SelectBatch | apps/telemetry-service/internal/worker/outbox_worker.go:281-316 | The query picks exactly the ten oldest unpublished rows, or all if fewer. |
| Outbox.OutboxWorker.ProcessBatch | apps/telemetry-service/internal/worker/outbox_worker.go:264-372 | A successful batch marks exactly the decodable picked rows and appends exactly their messages to the topic, once each and in creation order; a failed one appends a prefix of them and marks nothing. |
| Plans.LimitsAgree | apps/gateway/src/services/planEnforcement.ts:30-58 | Worker, gateway and registry, written differently, compute the same limit for every plan, status, period end and clock. |
| Plans.PriceList | apps/gateway/src/services/planEnforcement.ts:9-58 | The limit is 10, 100 or unlimited for the three paid plans while the subscription is in force, and 5 in every other case. |
| Plans.AdmitsIffBelow | apps/gateway/src/services/planEnforcement.ts:60-93 | The gateway admits a device exactly below the limit, always without one, and never for an unknown tenant. |
| Plans.AdmissionMatchesAllocation | apps/gateway/src/services/planEnforcement.ts:60-93 | The gateway admits a device if and only if the registry grants it once it is counted. |
| Reconcile.RanksAreDense | apps/jobs-worker/src/handlers/stripe.ts:79-108 | The ranks of a tenant's devices are 1 to n: for every k exactly min(k, n) devices have rank at most k. |
| Reconcile.RanksSurvive | apps/jobs-worker/src/handlers/stripe.ts:79-108 | Reconciling changes no rank. |
| Reconcile.EnabledCount | apps/jobs-worker/src/handlers/stripe.ts:79-108 | A finite limit leaves exactly min(limit, n) devices enabled, whatever the flags were. |
| Reconcile.EnabledAreOldest | apps/jobs-worker/src/handlers/stripe.ts:79-108 | Every enabled device is older by (created_at, id) than every disabled one. |
| Reconcile.OnlyItsFlags | apps/jobs-worker/src/handlers/stripe.ts:79-108 | Reconciling touches nothing but the flags of its tenant, and clears them all without a limit. |
| Reconcile.RaisingNeverDisables | apps/jobs-worker/src/handlers/stripe.ts:79-108 | Raising the limit disables no device. |
| Reconcile.LastLimitDecides | apps/jobs-worker/src/handlers/stripe.ts:79-108 | After two reconciliations only the last limit shows. |
| Reconcile.Ranked | apps/jobs-worker/src/handlers/stripe.ts:79-108 | The devices of the tenant, all of them and no others, in age order. |
| Reconcile.DeviceTable.ReconcileTenantDevices | apps/jobs-worker/src/handlers/stripe.ts:79-108 | Numbering by age and comparing sets exactly the flags that the rank definition gives, and touches no other tenant. |
| Billing.EffectIsConsistent | apps/jobs-worker/src/handlers/stripe.ts:226-445 | Both rows an event writes carry one plan and one status, and its limit is the one those rows imply. |
| BillingOutcomes.RowsAfterEvent | apps/jobs-worker/src/handlers/stripe.ts:226-461 | For every event kind, over runs, what both rows hold after its commit in terms of the event and the rows before: a failed payment leaves past_due and the rest as it was, a paid one active and the new or old period end, a deletion free, cancelled and nothing else, checkout and update what they name with their fallbacks; every other tenant keeps rows and devices. |
| BillingOutcomes.ForNobodyOrOne | apps/jobs-worker/src/handlers/stripe.ts:126-186 | An event for nobody, or of a kind not handled, changes nothing but the processed list; no event is for two tenants. |
| BillingOutcomes.DevicesAfterEvent | apps/jobs-worker/src/handlers/stripe.ts:226-445 | After an event as many devices of its tenant are enabled as the limit of the rows just written allows. |
| BillingOutcomes.FailedPayment | apps/jobs-worker/src/handlers/stripe.ts:410-445 | A payment that fails after the paid period leaves five devices enabled whatever the plan, one within the period as many as the plan allows. |
| BillingOutcomes.ProcessedIff | apps/jobs-worker/src/handlers/stripe.ts:207-461 | A new event is processed if and only if the tenant it is for exists and no id it would write is taken; payments and deletions always are. |
| Billing.ReconcilingAgrees | apps/jobs-worker/src/handlers/stripe.ts:226-445 | After a reconciling event a device is disabled exactly when its rank exceeds the limit that gateway and registry compute from the stored row. |
| Billing.RunsKeepInv | apps/jobs-worker/src/handlers/stripe.ts:207-501 | Over every run billing plan equals tenant plan, statuses are equal after the first status-writing event, Stripe ids stay unique. |
| Billing.BillingAgreement | apps/jobs-worker/src/handlers/stripe.ts:226-445 | The three services agree with the device flags after every committed reconciling event of every run. |
| Billing.PlansAndStatusesMirror | apps/jobs-worker/src/handlers/stripe.ts:226-445 | The mirrored plan and status columns, over whole runs. |
| Billing.LookupFindsTheHolder | apps/jobs-worker/src/handlers/stripe.ts:126-186 | In every run an event without a tenant is for the tenant whose row holds its subscription, or without a subscription its customer, and for nobody else. |
| Billing.OncePerEventIsDistinct | apps/jobs-worker/src/handlers/stripe.ts:188-201 | The reduced run holds no Stripe event id twice and none processed before. |
| Billing.ExactlyOnce | apps/jobs-worker/src/handlers/stripe.ts:188-220 | A run with duplicates and rolled-back attempts leaves the database of the run that applies each committed event once, in first-commit order. |
| StripeQueue.ActionConsumesWork | apps/jobs-worker/src/handlers/stripe.ts:514-557 | Every step but a new publication uses up some of the remaining work. |
| StripeQueue.NothingLostOrDoubled | apps/jobs-worker/src/handlers/stripe.ts:514-557 | Each published message is in exactly one place; at rest it is acknowledged or dead-lettered, never both, after at most three attempts. |
| StripeQueue.EndsWhereItShould | apps/jobs-worker/src/handlers/stripe.ts:514-557 | At rest, if processing works every well-formed message is acknowledged on its first try, and if it never does every one is dead-lettered after its third. |
| StripeQueue.QueueComesToRest | apps/jobs-worker/src/handlers/stripe.ts:514-557 | Once publishing stops, the queue comes to rest within a bounded number of steps. |
| StripeWorker.Worker.FindBillingContext | apps/jobs-worker/src/handlers/stripe.ts:126-186 | The first key given decides, and the scan finds the tenant the lookup definition names. |
| StripeWorker.Worker.ProcessStripeEvent | apps/jobs-worker/src/handlers/stripe.ts:207-512 | A job is applied once and completely; a repeated id changes nothing; any failure leaves every table as it was. |
| RateLimiter.AnswersLikeFullLog | apps/gateway/src/middleware/rateLimiting.ts:17-32 | The trimmed, expiring sorted set answers like a count over the whole request log. |
| RateLimiter.VerdictIff | apps/gateway/src/middleware/rateLimiting.ts:12-49 | A request is admitted if and only if fewer requests than its maximum were logged in the 60 seconds before, and let through unseen if and only if Redis is down. |
| RateLimiter.WindowBound | apps/gateway/src/middleware/rateLimiting.ts:17-71 | In every window of 60 seconds the limiters with maximum at most M together admit at most M requests, although others count in the same set. |
| RateLimiter.Limiter.ZRemRangeByScore | apps/gateway/src/middleware/rateLimiting.ts:25 | Removes exactly the members at or before the window start. |
| RateLimiter.Limiter.Handle | apps/gateway/src/middleware/rateLimiting.ts:12-49 | The pipeline has the verdict and the set of the step function; a Redis error lets the request through and changes nothing. |
| LookupCache.ResolveKeepsInv | apps/ingest-service/main.go:501-598 | A lookup keeps Redis entries right at their writing time and memory entries right at most one Redis lifetime before. |
| LookupCache.AnswerIsFresh | apps/ingest-service/main.go:501-598 | A positive answer was Postgres's answer at most memory plus Redis lifetime ago, a not-found answer is its answer now, and a lookup fails if and only if neither tier has the key and Postgres is down. |
| LookupCache.StalenessBound | apps/ingest-service/main.go:98-164 | The same for every run of many pods sharing Redis, with evictions, restarts and failing tiers. |
| LookupCache.MemoryBridgesOutages | apps/ingest-service/main.go:98-120 | A pod answers the same for the memory lifetime after a fetch, whatever the others do and with Redis and Postgres down, unless it restarts. |
| LookupCache.RedisBridgesOutages | apps/ingest-service/main.go:501-598 | What one pod has stored in Redis every pod finds for the Redis lifetime with Postgres down, unless it is evicted. |
| LookupCache.BridgedTimes | apps/ingest-service/main.go:98-164 | Five minutes for API keys and one for devices. |
| LookupCache.AcceptedDeviceWasEnabled | apps/ingest-service/main.go:558-598 | A device is accepted only if it was enabled within the last two minutes, refused as disabled only if it was disabled then, and unknown only if it is unknown now. |
| LookupCache.AcceptedKeyWasValid | apps/ingest-service/main.go:501-556 | An API key is accepted only if it was valid for that tenant within the last ten minutes. |
| LookupCache.LookupService.ResolveOne | apps/ingest-service/main.go:501-598 | The lookup as a program keeps the cached entries within their age bounds; what it finds is at most memory plus Redis lifetime old and what it does not find is not there now. |
| LookupCache.LookupService.Get | apps/ingest-service/main.go:98-120 | A hit exactly within the lifetime; an entry past it is deleted. |
| Dedupe.AtMostOnce | apps/cdc-transformer/internal/consumer/cdc_consumer.go:245-371 | In every run an offset has at most one owner in flight and is handed over at most once across both topics; every reservation is in flight, handed over or given up. |
| Dedupe.ExpiryIsSafeIffIdle | apps/cdc-transformer/internal/idempotency/dedupe.go:27-39 | Letting a key run out is harmless if and only if nobody holds the offset and it has not been handed over. |
| Dedupe.ExpiredWhileHeld | apps/cdc-transformer/internal/idempotency/dedupe.go:16-39 | A concrete run: the key expires while its offset is held and a second owner appears. |
| Dedupe.SecondOwner | apps/cdc-transformer/internal/idempotency/dedupe.go:27-29 | Without its key a held or handed-over offset gets a second owner at the next delivery. |
| Dedupe.DeliveryLeaves | apps/cdc-transformer/internal/consumer/cdc_consumer.go:245-304 | A delivery changes nothing if the offset is held or the call fails; otherwise an event waits to be published, a skipped one is done with, a failure gives the offset back if its key is deleted, and a lost reservation blocks it. |
| Dedupe.JobLeaves | apps/cdc-transformer/internal/consumer/cdc_consumer.go:306-371 | A job puts its message on the output topic, else on the dead-letter topic, and marks the key done once confirmed; what reached neither releases its key. |
| Dedupe.RedeliveryGetsThrough | apps/cdc-transformer/internal/consumer/cdc_consumer.go:245-371 | After a failed delivery whose key was deleted, the next delivery of the offset is handed over, once. |
| Dedupe.RetryWithBackoff | apps/cdc-transformer/internal/consumer/cdc_consumer.go:451-481 | Succeeds exactly if one of five attempts writes with nothing but refusals before it, and then has written once. |
| Dedupe.Consumer.ProcessMessage | apps/cdc-transformer/internal/consumer/cdc_consumer.go:245-304 | One delivery is a valid run of the protocol; the job is queued exactly if the key was free and the event transformed. |
| Dedupe.Consumer.Publish | apps/cdc-transformer/internal/consumer/cdc_consumer.go:306-371 | One publish job is a valid run: write or dead-letter, then confirm, or cancel. |
| Text.SplitResumes | apps/gateway/src/routes/devicesImport.ts:70-73 | Splitting a longer text is splitting the shorter one and resuming from its unfinished last part, for any delimiter. |
| Text.FeedIsSplit | apps/dashboard/src/features/devices/components/BulkImportModal.tsx:67-70 | However a text is cut, the collected parts and the remainder are those of the whole text. |
| Utf8.DecodedIffWhole | apps/gateway/src/routes/devicesImport.ts:69-70 | Decoding each chunk on its own gives the text back if and only if no chunk starts with a continuation byte. |
| Utf8.SplitAccent | apps/gateway/src/routes/devicesImport.ts:69-70 | A concrete two-byte character cut in two comes out as two replacement characters. |
| Utf8.StreamDecodes | apps/dashboard/src/features/devices/components/BulkImportModal.tsx:59-67 | A streaming decoder gives the text back wherever the bytes are cut, without a leading byte order mark. |
| CsvUpload.ChunkingDoesNotMatter | apps/gateway/src/routes/devicesImport.ts:66-99 | For every way of cutting the text, the reader collects the serials of the whole text. |
| CsvTables.TableRoundTrip | apps/gateway/src/routes/devicesImport.ts:66-99 | A table of plain cells written as a file and uploaded in any chunks gives back the column under the first serial heading, or the first column, in order, without empty cells. |
| CsvTables.KnownHeadings | apps/gateway/src/routes/devicesImport.ts:80-81 | In lower case exactly serialnumber, serial_number and serial are serial headings. |
| CsvTables.HeadingInCapitals | apps/gateway/src/routes/devicesImport.ts:80-81 | Capitals in a heading do not matter. |
| CsvUpload.ByteChunks | apps/gateway/src/routes/devicesImport.ts:66-99 | On bytes: the serials of the text decoded chunk by chunk, which is the text of the file if and only if no chunk starts with a continuation byte. |
| CsvUpload.TrailingNewline | apps/gateway/src/routes/devicesImport.ts:74-98 | A final newline is irrelevant if and only if the serial in the unfinished last line has no carriage return inside. |
| CsvUpload.CarriageReturnInLastLine | apps/gateway/src/routes/devicesImport.ts:74-98 | A concrete file whose last serial changes when a newline is appended. |
| CsvUpload.CsvReader.FindHeader | apps/gateway/src/routes/devicesImport.ts:80-81 | The position of the first serial heading, or -1. |
| CsvUpload.CsvReader.OnData | apps/gateway/src/routes/devicesImport.ts:69-89 | Complete lines are read in order, the rest waits. |
| CsvUpload.CsvReader.ReadAll | apps/gateway/src/routes/devicesImport.ts:66-99 | A whole upload in chunks collects the serials of the whole text. |
| FlatJson.StringifyParses | apps/gateway/src/routes/devicesImport.ts:54-56 | What is printed parses back to the same object. |
| FlatJson.StringifyIsOneLine | apps/gateway/src/routes/devicesImport.ts:54-56 | A printed object holds no newline, whatever its strings hold. |
| ProgressStream.StreamRoundTrip | apps/dashboard/src/features/devices/components/BulkImportModal.tsx:59-97 | However the stream is cut, the dashboard reads exactly the objects emitted, in order, and nothing is left over. |
| ProgressStream.StreamBytes | apps/dashboard/src/features/devices/components/BulkImportModal.tsx:59-97 | The same on bytes, with cuts anywhere. |
| ProgressStream.StreamReader.OnChunk | apps/dashboard/src/features/devices/components/BulkImportModal.tsx:67-97 | The complete parts are read in order, the last part waits. |
| ProgressStream.StreamReader.ReadAll | apps/dashboard/src/features/devices/components/BulkImportModal.tsx:63-98 | The loop reads what the chunk-by-chunk definition gives. |
| BulkImport.Import | apps/gateway/src/routes/devicesImport.ts:144-185 | One event per row with its running counters, then the final one; successes and failures add up to the rows; the status is failed if all rows fail and completed if none does. |
| BulkImport.UploadEndToEnd | apps/gateway/src/routes/devicesImport.ts:25-187 | Upload, import and response composed, cut anywhere: the dashboard sees the report on the serials of the text received, which is the file if and only if no chunk starts with a continuation byte. |
| BulkImport.ReportStopsOnce | apps/gateway/src/routes/devicesImport.ts:101-187 | Every report ends with the one event that ends the import, and no earlier event does. |
| ImportScreen.ReadsAsMeant | apps/dashboard/src/features/devices/components/BulkImportModal.tsx:71-91 | The dashboard reads row, status, message, error, end and counters of every event as the server meant them. |
| ImportScreen.ScreenAfterReport | apps/dashboard/src/features/devices/components/BulkImportModal.tsx:71-91 | After a report the screen waits no longer, announces success once if and only if all rows were tried, valid and created, shows the final counters, and lists the latest hundred rows, newest first, with their reasons. |
| ImportScreen.WhatTheUserSees | apps/dashboard/src/features/devices/components/BulkImportModal.tsx:52-97 | The same from the bytes of the file to the screen, cut anywhere on both ways. |
| CursorPaging.NeverRepeats | apps/bff/src/datasources/postgres.ts:286-337 | Following endCursor never shows a row twice. |
| CursorPaging.WalkIsCompleteIff | apps/bff/src/datasources/postgres.ts:286-374 | The walk visits every row once, newest first, if and only if every page boundary separates two milliseconds. |
| CursorPaging.WalkPageCount | apps/bff/src/datasources/postgres.ts:296-337 | A complete walk takes ceil(n / first) pages, and one for an empty table. |
| CursorPaging.DistinctMillisecondsSuffice | apps/bff/src/datasources/postgres.ts:351-374 | Distinct milliseconds make the walk complete. |
| CursorPaging.SameMillisecondIsSkipped | apps/bff/src/datasources/postgres.ts:351-374 | Two devices of one millisecond and pages of one: the second is never shown. |
| CursorPaging.WalkVisits | apps/bff/src/datasources/postgres.ts:286-374 | The walk by requests visits what the recursion over remaining rows visits, in as many pages. |

## Left out

- `HandleTelemetry`: only its upsert rule serves, as the one-at-a-time reference; its own cache key and its stale-event error are not modelled.
- The order of history rows in the copy: the history table is a bag, so the sort before the copy is not modelled.
- updated_at, tenant of a telemetry row in the cache payload, cache lifetimes as durations: an expiry may happen at any time.
- Saga terminal states are not absorbing and the pointer is not monotone in the code, so neither is claimed.
- SagaMessages.WireKeepsTheExchange: JSON is a tree with named keys, not text.
- DeviceEvents.CreatedSurvivesRelay: JSON is a tree with named keys, not text, and the telemetry branch of the relay's decoder is not modelled.
- DeviceRegistration.DeviceStore.Execute: the tenant is not empty, because the tables' uuid column rejects it before.
- Provisioning.QuotaSafety: limits change by an action of their own; the clock that ends a grace period is such an action.
- Billing.RunsKeepInv: emails, Auth0 and the tables' seed rows are not modelled; tenants come from registration.
- StripeQueue.NothingLostOrDoubled: a crash between resending and acknowledging would add a copy.
- LookupCache.AnswerIsFresh: the two database queries of a device lookup are one answer, and the locks around the pod's map are one step.
- LookupCache.AcceptedDeviceWasEnabled: the bound is for the default lifetimes; StalenessBound holds for any.
- Dedupe.AtMostOnce: holds without expiry; the commit coordinator's batching of offsets is not modelled.
- CsvUpload.CsvReader.ReadAll: one file field per upload; the size limit and the multipart framing are not modelled.
- CsvTables.TableRoundTrip: cells without separators and without white space at their ends; quoted cells do not exist for the reader.
- FlatJson.StringifyParses: the reader accepts the texts the printer writes, fewer than JSON.parse does.
- BulkImport.Import: the quota check, the creation of a device and the job row are inputs; parse errors of the multipart body are not reported.
- CursorPaging.WalkIsCompleteIff: tenants only, because the listing without a tenant ignores the cursor; rows with equal times keep one order; totalCount and its cache are not modelled.
- Authentication, roles, SSO, teams, API keys, audit log and preferences: route guards and single-row reads and writes of the gateway.
- Risk scores and alert rules, with the in-memory cooldown of workflow-alerts; alert, email, webhook, export and digest jobs, which query, render, sign and send, and retry by the resend-and-acknowledge scheme of `StripeQueue`.
- The search indexer and the Cassandra writer, which copy topic messages into another store, and the dead-letter reprocessor, which publishes dead letters again.
- Metrics, tracing, health checks and circuit breakers; the dashboard's components other than the upload and its progress stream.
