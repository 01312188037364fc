# Atlas platform: a verified model of its event, tenant and provisioning logic

This project models, in Dafny, the parts of the Atlas SaaS platform where state, interleaving or
arithmetic decide whether the platform keeps its promises, and proves those promises for all inputs and
all runs.

* **Outbox.** `OutboxEntries`, `OutboxTable` and `OutboxProcessor` follow the entity, the repository and the
  polling service, method by method. `OutboxProtocol` is the same protocol as a step machine in which batches
  overlap, because the timer starts a batch without waiting for the previous one. `OutboxHistory` tells the
  table by the actions of a run alone. `OutboxSoleWorker` and `OutboxDrain` say what holds in addition when
  batches do not overlap, and how fast the outbox empties.
* **Event buses.** `ForwardingBus` and `CallTree` record what handlers and their nested publications leave in
  the outbox; `InMemoryBus` models handler arrays as objects, since the running publish shares them with the
  registry; `RedisGroup` is the consumer-group protocol, `RedisCodec` its field lists, `IngestRequest` the
  request that finally leaves the platform.
* **Tenants.** `TenantTables` holds the scoped repository operations on a table that all tenants share,
  `AuditLog`, `AuditIsolation` and `AuditPaging` the audit log, its runs and its pages, `WorkflowStore`,
  `WorkflowOutcomes` and `WorkflowLineage` the handlers that trigger and cancel workflow executions. The common theorem is that one shared store behaves as one store per tenant.
* **Algorithms.** `Calendar` and `EventSeries` are the seven-day dashboard series, `Slug` the derivation of
  tenant slugs, `Accounts` and `Bootstrap` login and the script that provisions the first tenant.

Where the code works by steps the model has classes and loops proved against specification functions, and
the theorems are about those functions. `Wrappers`, `Events`, `Text`, `Decimal`,
`Counting` and `Pagination` are shared.

Where code and comments disagree, the model follows the code:

* There is no backoff between attempts, and the Redis loop never reads its pending list again.
* The unique constraint on `event_id` is declared on the ORM entity
  (apps/api/src/modules/outbox/infrastructure/persistence/outbox-entry.orm-entity.ts:10), while the migration
  creates a plain index (database/migrations/1716500000000-AddOutboxEntries.ts:38). It is a parameter here,
  and `ForwardingBus.OneRowPerEventIff` says exactly what depends on it.
* A save that passes the tenant guard writes by primary key, so it stays within the tenant only for keys that
  are new or the tenant's own (`TenantTables.SaveIsPrivateIff`). In the handlers keys are generated or come from a
  scoped read, which `WorkflowStore` shows to be enough.
* The bootstrap script always reports the owner as linked; `Bootstrap.OwnerLinkedIff` says when that is so.
* `Date.UTC` takes the years 0 to 99 as 1900 to 1999, so `startOfUtcDay` is off in those years.
* An execution saved without an error message keeps the message already stored, because undefined columns are
  not written.

## Model

| member | source | states |
|---|---|---|
| OutboxProtocol.OutboxSafety | apps/api/src/modules/outbox/application/services/outbox-processor.service.ts:43-93 | Over every run of the step machine (appends, any number of overlapping batches, crashes, ingest and save free to fail): a stored row never claims more errors than happened, processed means accepted by the backbone, failed means five recorded and at least five real errors, pending means at most four; and the table holds exactly the appended events, one row each |
| OutboxProtocol.StepKeepsInv | apps/api/src/modules/outbox/application/services/outbox-processor.service.ts:30-93 | Each single step, stale whole-row saves included, keeps the invariant behind the safety theorem, and no step but an append changes the number of rows |
| OutboxProtocol.SaveKeepsEvents | apps/api/src/modules/outbox/infrastructure/persistence/outbox-entry.repository.ts:30-32 | Saving any copy, however stale, leaves every event of the table where it was |
| OutboxTable.OldestPendingIsPossible | apps/api/src/modules/outbox/infrastructure/persistence/outbox-entry.repository.ts:21-28 | The repository's answer is one of the answers that the database may give to "the oldest pending rows, at most limit" |
| OutboxTable.OutboxEntryRepository.Append | apps/api/src/modules/outbox/infrastructure/persistence/outbox-entry.repository.ts:15-19 | An append inserts the entry in creation order, or leaves the table alone when the statement fails or a key is taken |
| OutboxTable.OutboxEntryRepository.FindPending | apps/api/src/modules/outbox/infrastructure/persistence/outbox-entry.repository.ts:21-28 | Distinct fresh copies of the oldest pending rows, at most limit, oldest first |
| OutboxTable.OutboxEntryRepository.Save | apps/api/src/modules/outbox/infrastructure/persistence/outbox-entry.repository.ts:30-32 | The row with the entry's key becomes the entry as it is in hand; nothing else changes |
| OutboxEntries.OutboxEntryEntity.Create | apps/api/src/modules/outbox/domain/entities/outbox-entry.entity.ts:68-76 | A new entry is pending, without attempts, created at the given time, and holds each field of the event in its own column |
| OutboxEntries.OutboxEntryEntity.Reconstitute | apps/api/src/modules/outbox/infrastructure/persistence/outbox-entry.repository.ts:34-78 | Loading a row and writing it back unchanged is the identity on rows |
| OutboxEntries.OutboxEntryEntity.MarkProcessed | apps/api/src/modules/outbox/domain/entities/outbox-entry.entity.ts:82-85 | The entry becomes processed now; every other column stays |
| OutboxEntries.OutboxEntryEntity.RecordAttemptFailure | apps/api/src/modules/outbox/domain/entities/outbox-entry.entity.ts:87-93 | One more attempt and its error; failed once the attempts reach the limit, pending below it; every other column stays |
| OutboxProcessor.OutboxProcessorService.ProcessBatch | apps/api/src/modules/outbox/application/services/outbox-processor.service.ts:43-93 | The loop over fetched entries leaves the table that one pass settling the first 50 pending rows in place leaves: told row by row, those rows get the columns of their outcomes unless their save fails, and no other row changes |
| OutboxProcessor.OutboxProcessorService.ForwardEntry | apps/api/src/modules/outbox/application/services/outbox-processor.service.ts:52-92 | One entry is forwarded, its outcome recorded, and the row written back |
| OutboxProcessor.PolledStep | apps/api/src/modules/outbox/application/services/outbox-processor.service.ts:52-92 | Writing back the next entry turns the pass over i rows into the pass over i + 1 rows |
| OutboxProcessor.BatchRowByRow | apps/api/src/modules/outbox/application/services/outbox-processor.service.ts:43-93 | The pass, row by row and column by column: exactly the rows that are pending with fewer than 50 pending rows before them and whose save succeeds get the status, attempts, error and time of their outcome |
| OutboxHistory.PublicationOrder | apps/api/src/modules/outbox/domain/entities/outbox-entry.entity.ts:68-76 | For every run whose clock does not go back: the row of the i-th append stands at place i, with that append's time as creation time and each column of that event |
| OutboxHistory.EarlierFetchedFirst | apps/api/src/modules/outbox/infrastructure/persistence/outbox-entry.repository.ts:21-28 | For every run whose clock does not go back, and every order the database gives to rows of one instant: a poll that returns a publication returns each earlier one that is still pending, ahead of it |
| OutboxHistory.HistorySafety | apps/api/src/modules/outbox/application/services/outbox-processor.service.ts:43-93 | The safety claims by the history of actions alone: a processed row was accepted by the backbone in some step of the run, a row has at most as many attempts as steps in which it was offered and not accepted, failed means five attempts and pending at most four |
| OutboxHistory.TallyIsHistory | apps/api/src/modules/outbox/application/services/outbox-processor.service.ts:43-93 | What the machine tallies per row (stored, acknowledged, failed, lost saves) are numbers of steps of the run |
| OutboxHistory.EnvironmentIsFree | apps/api/src/modules/outbox/application/services/outbox-processor.service.ts:35-93 | The machine restricts neither publications nor polls nor the answers of backbone and database: in every state within the invariant each of them can come next |
| OutboxSoleWorker.BatchIsARun | apps/api/src/modules/outbox/application/services/outbox-processor.service.ts:43-93 | What the method does to the table is what the step machine does when one batch runs undisturbed |
| OutboxSoleWorker.Conservation | apps/api/src/modules/outbox/domain/entities/outbox-entry.entity.ts:82-93 | Without overlap, for each row at rest: acknowledgements are one if it is processed plus the saves lost after a success, errors are its attempts plus the saves lost after a failure |
| OutboxSoleWorker.AtMostOnceAcknowledged | apps/api/src/modules/outbox/application/services/outbox-processor.service.ts:52-92 | Without overlap and lost saves, an event is acknowledged at most once and offered at most five times |
| OutboxSoleWorker.OutcomeIsFinal | apps/api/src/modules/outbox/application/services/outbox-processor.service.ts:43-93 | Without overlap, from any point on, a row that is no longer pending never changes |
| OutboxSoleWorker.OverlapUndoesOutcome | apps/api/src/modules/outbox/application/services/outbox-processor.service.ts:35-35 | A concrete run of two overlapping batches after which an acknowledged, processed row is pending again |
| OutboxSoleWorker.ProcessedStaysIff | apps/api/src/modules/outbox/infrastructure/persistence/outbox-entry.repository.ts:30-32 | With overlap, a step keeps processed rows processed exactly when it is not the save of an unprocessed copy over a processed row |
| OutboxDrain.NoStarvation | apps/api/src/modules/outbox/infrastructure/persistence/outbox-entry.repository.ts:21-28 | A pending row with k pending rows before it is still in its place after 5 * (k / 50) + n polls, with its event, and is settled or has been tried n more times, whatever the backbone answers and while newer rows arrive |
| OutboxDrain.Drain | apps/api/src/modules/outbox/application/services/outbox-processor.service.ts:43-52 | Each of N pending rows is in its place, with its event, and processed or failed after 5 * ceil(N / 50) polls |
| OutboxDrain.RowsStay | apps/api/src/modules/outbox/application/services/outbox-processor.service.ts:43-93 | Polls and arrivals leave every row in its place, with its event |
| OutboxDrain.FirstAttemptsInOrder | apps/api/src/modules/outbox/infrastructure/persistence/outbox-entry.repository.ts:21-28 | Tried rows always form a prefix of the table: first attempts happen in order of creation |
| OutboxDrain.QueueOfTable | apps/api/src/modules/outbox/infrastructure/persistence/outbox-entry.repository.ts:21-28 | The pending rows of the table evolve as a queue of their own |
| ForwardingBus.ForwardingEventBus.Publish | apps/api/src/modules/platform-events/adapters/forwarding.event-bus.ts:43-46 | The outbox is written exactly when the inner bus accepts; an outbox failure never reaches the caller |
| ForwardingBus.ForwardingEventBus.PublishBatch | apps/api/src/modules/platform-events/adapters/forwarding.event-bus.ts:48-53 | As for each event in turn when the inner bus accepts the batch, nothing when it rejects |
| ForwardingBus.ForwardingEventBus.WriteToOutbox | apps/api/src/modules/platform-events/adapters/forwarding.event-bus.ts:63-88 | One attempted append, its failure swallowed |
| ForwardingBus.CallsAreWrites | apps/api/src/modules/platform-events/adapters/forwarding.event-bus.ts:43-53 | A history of publish and publishBatch calls leaves what its accepted events leave when written one by one |
| ForwardingBus.FirstWriteWins | apps/api/src/modules/platform-events/adapters/forwarding.event-bus.ts:63-88 | Under unique event ids an event has one row, that of its first write to reach the database, and no other write matters |
| ForwardingBus.EveryWriteCounts | apps/api/src/modules/platform-events/adapters/forwarding.event-bus.ts:63-88 | Without the constraint each write that reaches the database adds a row |
| ForwardingBus.OutboxAfterHistory | apps/api/src/modules/platform-events/adapters/forwarding.event-bus.ts:43-88 | The outbox after any history, told event by event |
| ForwardingBus.RecordedIff | apps/api/src/modules/platform-events/adapters/forwarding.event-bus.ts:43-88 | After any history an event is in the outbox exactly when some call that the inner bus accepted published it while the database was up |
| ForwardingBus.OneRowPerEventIff | apps/api/src/modules/outbox/infrastructure/persistence/outbox-entry.orm-entity.ts:10-10 | A history leaves at most one row per event exactly when the constraint is there or no event reaches the table twice |
| CallTree.ReentrantBus.Publish | apps/api/src/modules/platform-events/adapters/forwarding.event-bus.ts:43-46 | With handlers that publish further events, the rows are appended in the post-order of the call tree |
| CallTree.ReentrantBus.InnerPublish | apps/api/src/modules/platform-events/adapters/in-memory.event-bus.ts:18-38 | Every handler runs in turn, whatever the earlier ones threw |
| CallTree.PlaceHoldsCall | apps/api/src/modules/platform-events/adapters/forwarding.event-bus.ts:43-46 | Each call of the tree stands at its computed place of the outbox order |
| CallTree.EveryPlaceIsACall | apps/api/src/modules/platform-events/adapters/forwarding.event-bus.ts:43-46 | Every place of the outbox order belongs to a call of the tree |
| CallTree.EffectsBeforeCause | apps/api/src/modules/platform-events/adapters/forwarding.event-bus.ts:43-46 | Whatever is published below a call is recorded before the call's own event |
| CallTree.SiblingsInOrder | apps/api/src/modules/platform-events/adapters/in-memory.event-bus.ts:29-37 | Events below earlier publications are recorded before those below later ones |
| InMemoryBus.InMemoryEventBus.Subscribe | apps/api/src/modules/platform-events/adapters/in-memory.event-bus.ts:46-51 | Subscribing pushes onto the registered array, which a running publish may be walking |
| InMemoryBus.InMemoryEventBus.Unsubscribe | apps/api/src/modules/platform-events/adapters/in-memory.event-bus.ts:53-57 | Unsubscribing registers a new array and leaves the old one untouched |
| InMemoryBus.InMemoryEventBus.Publish | apps/api/src/modules/platform-events/adapters/in-memory.event-bus.ts:18-38 | With handlers that change the registry while they run: each handler of the walked array is called once, in order, and every failure is counted and dropped; the array is the initial one plus what was subscribed before the first unsubscribe of that type |
| InMemoryBus.WalkedList | apps/api/src/modules/platform-events/adapters/in-memory.event-bus.ts:46-57 | The walked list is the list registered for the type just before the first unsubscription of that type, or in the end when there is none |
| InMemoryBus.OpTells | apps/api/src/modules/platform-events/adapters/in-memory.event-bus.ts:46-57 | Subscribing adds one handler at the end; unsubscribing drops every handler of the name and keeps the others in their order, each as often as before; other event types are untouched |
| RedisGroup.GroupSafety | apps/api/src/modules/platform-events/adapters/redis-streams.event-bus.ts:110-193 | Over every run with overlapping consume loops: messages since the group's creation are undelivered, pending or acknowledged, and only one of these; each is dispatched at most once; acknowledged means every handler succeeded; a fully dispatched message was offered to each handler once, in order, with one dead letter per failure |
| RedisGroup.StepKeepsInv | apps/api/src/modules/platform-events/adapters/redis-streams.event-bus.ts:110-135 | Each step of the consumer-group machine keeps the invariant |
| RedisGroup.RedisStreamsEventBus.DispatchToHandlers | apps/api/src/modules/platform-events/adapters/redis-streams.event-bus.ts:155-178 | The handlers are called in order, the later ones also after a failure whose dead letter was sent, and only a failure whose letter was not confirmed ends the calls; the message is acknowledged when all succeeded; when the dispatch throws |
| RedisGroup.DispatchIsARun | apps/api/src/modules/platform-events/adapters/redis-streams.event-bus.ts:155-193 | What the method does to a message is what the machine's loop does in one undisturbed dispatch |
| RedisGroup.LettersTell | apps/api/src/modules/platform-events/adapters/redis-streams.event-bus.ts:163-174 | One dead letter, in order, for each failed call whose letter is not known to be lost, under the handler's name |
| RedisCodec.DeserializeEvent | apps/api/src/modules/platform-events/adapters/redis-streams.event-bus.ts:137-153 | The decode loop builds the object in which later pairs win, and the event from it |
| RedisCodec.SingleRoundTrip | apps/api/src/modules/platform-events/adapters/redis-streams.event-bus.ts:52-68 | A published event is read back without causation, trace, source version and replay data, an empty actor as absent |
| RedisCodec.BatchRoundTrip | apps/api/src/modules/platform-events/adapters/redis-streams.event-bus.ts:70-85 | An event of a batch also comes back with version 1, no source and no actor |
| RedisCodec.ForwardingReceived | apps/api/src/modules/platform-events/adapters/redis-streams.event-bus.ts:52-153 | Both projections are idempotent and commute, and a batch loses nothing more than publish exactly when the event has the batch's defaults |
| RedisCodec.PairOrderIsIrrelevant | apps/api/src/modules/platform-events/adapters/redis-streams.event-bus.ts:137-141 | The decoder ignores the order of pairs with distinct keys |
| RedisCodec.LastPairWins | apps/api/src/modules/platform-events/adapters/redis-streams.event-bus.ts:137-141 | In any list a key has the value of the last pair that gives it, none when that pair is cut short, and is absent when no pair gives it |
| RedisCodec.MissingKeys | apps/api/src/modules/platform-events/adapters/redis-streams.event-bus.ts:142-152 | What the decoder makes of keys that no pair gives: version 1, no source, the payload text {}, no actor |
| IngestRequest.BuildRequest | apps/api/src/modules/platform-events/adapters/event-streaming-http.client.ts:48-81 | Headers and metadata key by key: the token, the content type and the correlation always, causation and trace when not empty; the event's own fields win over the caller's metadata wherever they are given |
| IngestRequest.RequestTellsEvent | apps/api/src/modules/platform-events/adapters/event-streaming-http.client.ts:48-81 | From the request of a row, whatever its status, every envelope field of the published event can be recovered except its time and replay data |
| IngestRequest.Forwarded | apps/api/src/modules/outbox/application/services/outbox-processor.service.ts:54-71 | Event, entry, row, entry, request: the composition of the four hops, to the stream platform.tenant.type, with the token and the ids of event and tenant |
| IngestRequest.StreamIdInjective | apps/api/src/modules/outbox/application/services/outbox-processor.service.ts:55-55 | Stream names are injective in tenant and event type for tenant ids without a dot |
| IngestRequest.TenantsShareStreamIff | apps/api/src/modules/outbox/application/services/outbox-processor.service.ts:55-55 | Two tenants share a stream for some event types exactly when they are the same or one id continues the other after a dot |
| Decimal.ParseIntOfDecimal | apps/api/src/modules/platform-events/adapters/redis-streams.event-bus.ts:149-149 | An integer survives its decimal text |
| TenantTables.ReadsArePrivate | libs/shared-kernel/src/infrastructure/tenant-aware.repository.ts:57-75 | A scoped find or list returns on the shared table what it returns on the tenant's private one, with or without a context |
| TenantTables.SlicePlaces | libs/shared-kernel/src/infrastructure/tenant-aware.repository.ts:61-75 | A filtered, skipped and limited read returns each wanted row at the number of wanted rows ahead of it less the skip, and as many rows as are left, at most the limit |
| TenantTables.SaveIsPrivate | libs/shared-kernel/src/infrastructure/tenant-aware.repository.ts:84-92 | A guarded save has on the shared table the effect, outcome included, of the private table, and no other tenant's rows change |
| TenantTables.SaveIsPrivateIff | libs/shared-kernel/src/infrastructure/tenant-aware.repository.ts:84-92 | That holds exactly when the saved key is new or the tenant's own: the guard compares the entity's tenant, the database overwrites by key |
| TenantTables.ScopedWhereConfinesIff | libs/shared-kernel/src/infrastructure/tenant-aware.repository.ts:57-59 | The merged condition confines a query to the tenant exactly when the caller's part names no other tenant |
| AuditLog.AuditEventRepository.Append | apps/api/src/modules/audit/infrastructure/persistence/audit-event.repository.ts:29-36 | One event is added, in its place by time, exactly when the context is its tenant and its key is new; otherwise the log stays, with the error for the reason |
| AuditLog.AuditEventRepository.AppendBatch | apps/api/src/modules/audit/infrastructure/persistence/audit-event.repository.ts:38-50 | Every row of the batch is added exactly when all are of the context's tenant and their keys are new and differ, otherwise nothing; an empty batch needs no context |
| AuditLog.AuditEventRepository.Query | apps/api/src/modules/audit/infrastructure/persistence/audit-event.repository.ts:59-89 | One page of the tenant's matching events with the page metadata of all matches, limit at most 200; each row returned has every column that the filter gives and lies between its dates; for a page or limit out of range the metadata of all matches with whatever the driver answers |
| AuditLog.Clauses | apps/api/src/modules/audit/infrastructure/persistence/audit-event.repository.ts:68-80 | The accumulated clauses hold of a row exactly when it has each column that the filter gives and does not leave empty and lies between both dates if both are given |
| AuditLog.QueryTells | apps/api/src/modules/audit/infrastructure/persistence/audit-event.repository.ts:67-82 | By columns alone: exactly the tenant's rows that have each given column and lie between the given dates are returned, each at its number among them less the offset |
| AuditLog.MatchingCounts | apps/api/src/modules/audit/infrastructure/persistence/audit-event.repository.ts:67-82 | The total is the number of those rows |
| AuditLog.InsertAllIff | apps/api/src/modules/audit/infrastructure/persistence/audit-event.repository.ts:38-50 | A batch is stored whole exactly when its keys are new and differ from each other |
| AuditLog.AppendIsPrivateIff | apps/api/src/modules/audit/infrastructure/persistence/audit-event.repository.ts:29-36 | An append behaves as in the private log exactly when no other tenant has the key |
| AuditLog.AppendIsPrivate | apps/api/src/modules/audit/infrastructure/persistence/audit-event.repository.ts:29-36 | An append whose key is new or the tenant's own behaves as in the private log, for every context |
| AuditLog.BatchIsPrivate | apps/api/src/modules/audit/infrastructure/persistence/audit-event.repository.ts:38-50 | A batch with keys that are new or the tenant's own behaves as in the private log, for every context and mixture of tenants |
| AuditLog.QueryIsPrivate | apps/api/src/modules/audit/infrastructure/persistence/audit-event.repository.ts:59-89 | A query sees the private log only, in its page as in its count |
| AuditIsolation.TenantsAreIsolated | apps/api/src/modules/audit/infrastructure/persistence/audit-event.repository.ts:29-89 | In any interleaving of all tenants' appends, batches, lookups and queries, the two statements of a query apart, each tenant gets the outcomes, and is left with the rows, of its own actions alone on a private log |
| AuditIsolation.StepIsolated | apps/api/src/modules/audit/infrastructure/persistence/audit-event.repository.ts:29-89 | The same for each single action, and the log stays ordered with unique keys |
| AuditIsolation.NoContextNoEffect | libs/shared-kernel/src/infrastructure/tenant-aware.repository.ts:17-26 | Without a tenant context nothing is written, and only the empty batch does not fail |
| AuditIsolation.OutcomeAt | apps/api/src/modules/audit/infrastructure/persistence/audit-event.repository.ts:29-89 | What the theorem compares: the tenant's n-th action and its outcome stand at place n of the two lists |
| Pagination.HasNextPageIff | libs/shared-kernel/src/types/pagination.types.ts:22-36 | For every page and limit, given back with the total: with a positive limit hasNextPage says that rows are left behind the page, with a limit of zero that there are any, with a negative limit that page times limit exceeds the total |
| AuditPaging.NothingIsMissed | apps/api/src/modules/audit/infrastructure/persistence/audit-event.repository.ts:59-89 | A client that follows hasNextPage to the end sees every row of the tenant that had the given columns and dates when it started, whatever anybody inserts between its fetches, or between the page and the count of one fetch, and wherever that sorts |
| AuditPaging.EachRowOnce | libs/shared-kernel/src/types/pagination.types.ts:22-36 | Without appends it gets every match exactly once, in order, in ceil(total / limit) fetches (one if nothing matches) |
| AuditPaging.NothingForeign | apps/api/src/modules/audit/infrastructure/persistence/audit-event.repository.ts:67-80 | No fetch shows a row of another tenant, or one without a column that the filter gives, or one outside its dates |
| AuditPaging.GrownStores | apps/api/src/modules/audit/infrastructure/persistence/audit-event.repository.ts:29-50 | What is inserted during the walk is stored: while its keys are new, every row of it |
| AuditPaging.WalkByOffset | apps/api/src/modules/audit/infrastructure/persistence/audit-event.repository.ts:63-65 | Page numbers and page counts amount to offsets |
| WorkflowStore.TenantsAreIsolated | libs/shared-kernel/src/infrastructure/tenant-aware.repository.ts:57-92 | In any interleaving of all tenants' handler steps each tenant gets the outcomes, and is left with the rows and the work in progress, of running its own steps alone on private tables |
| WorkflowStore.StepIsolated | apps/api/src/modules/workflow/infrastructure/persistence/workflow-execution.repository.ts:30-90 | The same for each single step: reads, queries, definition saves, triggers, cancels |
| WorkflowStore.NoContextNoEffect | libs/shared-kernel/src/infrastructure/tenant-aware.repository.ts:17-26 | Without a tenant context no step reads or writes anything |
| WorkflowLineage.ExecutionLineage | apps/api/src/modules/workflow/application/commands/trigger-workflow/trigger-workflow.handler.ts:27-49 | In every run each execution references a stored definition of its own tenant, and goes back to one save of a trigger, with the columns it still has, by a request of that tenant that had read the definition when it was stored as active and neither loaded nor saved anything in between |
| WorkflowLineage.OneExecutionPerRead | apps/api/src/modules/workflow/application/commands/trigger-workflow/trigger-workflow.handler.ts:28-49 | One read of an active definition is good for one execution |
| WorkflowStore.StepKeepsInv | apps/api/src/modules/workflow/application/commands/trigger-workflow/trigger-workflow.handler.ts:27-49 | Every step keeps: unique keys, each execution's definition in its own tenant, and work in progress only on the tenant's own rows |
| WorkflowStore.TriggerSaves | apps/api/src/modules/workflow/application/commands/trigger-workflow/trigger-workflow.handler.ts:40-49 | The save adds one pending execution of the definition that was read, each column from the command, by system when nobody is named; or is forbidden when the command speaks for another tenant than the context |
| WorkflowStore.CancelSaves | apps/api/src/modules/workflow/application/commands/cancel-execution/cancel-execution.handler.ts:21-22 | Conflict exactly when the execution was terminal as loaded, whatever is stored by now; otherwise the stored row becomes the loaded one, cancelled, but for an error message that nobody gave |
| WorkflowStore.WorkflowHandlers.Trigger | apps/api/src/modules/workflow/application/commands/trigger-workflow/trigger-workflow.handler.ts:27-78 | The read, checks and save, as the two machine steps with nothing between them; then, if an execution was saved, one event under its id with tenant, correlation, actor and payload as the execution and definition have them, and an exception when the bus rejects it |
| WorkflowStore.WorkflowHandlers.Cancel | apps/api/src/modules/workflow/application/commands/cancel-execution/cancel-execution.handler.ts:13-26 | Load, cancel, save, as the two machine steps with nothing between them |
| WorkflowStore.WorkflowExecutionEntity.Cancel | apps/api/src/modules/workflow/domain/entities/workflow-execution.entity.ts:106-119 | Works exactly while pending or running, and then sets status, end, duration and reason and no other column |
| WorkflowOutcomes.TriggerReads | apps/api/src/modules/workflow/application/commands/trigger-workflow/trigger-workflow.handler.ts:28-38 | The read of a trigger goes on exactly with an active definition of the own tenant, is refused exactly with an inactive one, and finds none otherwise |
| WorkflowOutcomes.ExecutionReads | apps/api/src/modules/workflow/application/commands/cancel-execution/cancel-execution.handler.ts:16-19 | A cancel goes on with, and a lookup returns, the execution of the key exactly when it is the own tenant's |
| WorkflowOutcomes.Lists | apps/api/src/modules/workflow/infrastructure/persistence/workflow-execution.repository.ts:36-82 | A listing counts, and pages through in table order, exactly the tenant's executions with the given definition and status |
| WorkflowOutcomes.DefinitionQueries | apps/api/src/modules/workflow/infrastructure/persistence/workflow-definition.repository.ts:33-55 | An event starts exactly the tenant's active definitions with its type as trigger; a definition exists when the tenant has it |
| WorkflowOutcomes.Saves | apps/api/src/modules/workflow/infrastructure/persistence/workflow-definition.repository.ts:43-48 | A save puts the definition as loaded, with the new status, over the stored row, and changes no other |
| WorkflowOutcomes.OutcomeAt | libs/shared-kernel/src/infrastructure/tenant-aware.repository.ts:57-92 | What the isolation theorem compares: the tenant's n-th step and its outcome stand at place n of the two lists |
| Calendar.StartOfUtcDayIff | apps/api/src/modules/dashboard/application/queries/get-event-series/get-event-series.handler.ts:101-103 | The start of the day is the time rounded down to whole days, except in the years 0 to 99, which Date.UTC takes as 1900 to 1999 |
| Calendar.MakeDayOfDate | apps/api/src/modules/dashboard/application/queries/get-event-series/get-event-series.handler.ts:101-103 | Year, month and day of a day lead back to it |
| Calendar.GregorianLengths | apps/api/src/modules/dashboard/application/queries/get-event-series/get-event-series.handler.ts:101-103 | Leap years and the lengths of years and months are those of the Gregorian calendar |
| Calendar.DateOfMakeDay | apps/api/src/modules/dashboard/application/queries/get-event-series/get-event-series.handler.ts:101-103 | Every date of the calendar is the date of its day |
| Calendar.DatesAreOrdered | apps/api/src/modules/dashboard/application/queries/get-event-series/get-event-series.handler.ts:105-110 | Days are ordered as their dates are, year first |
| Calendar.FormatDayIsInjective | apps/api/src/modules/dashboard/application/queries/get-event-series/get-event-series.handler.ts:105-110 | Two days with the same text are the same day, in every year |
| Calendar.FormatDayTells | apps/api/src/modules/dashboard/application/queries/get-event-series/get-event-series.handler.ts:105-110 | YYYY-MM-DD, digit by digit, for years of up to four digits |
| Calendar.FormatDayKeepsOrder | apps/api/src/modules/dashboard/application/queries/get-event-series/get-event-series.handler.ts:105-110 | From year 0 to year 9999 the texts sort as the days do |
| Calendar.TextsSortIff | apps/api/src/modules/dashboard/application/queries/get-event-series/get-event-series.handler.ts:105-110 | The texts of the days from year 0 on sort as the days do exactly up to the end of the year 9999 |
| EventSeries.Execute | apps/api/src/modules/dashboard/application/queries/get-event-series/get-event-series.handler.ts:43-91 | Seven points a day apart, the last at the start of today; each has as many events and failures as there are places in the shared tables with an event of the tenant, or a failed execution of the tenant, on that day, for any order in which the database answers the grouped queries |
| EventSeries.SeriesIsPrivate | apps/api/src/modules/dashboard/application/queries/get-event-series/get-event-series.handler.ts:56-77 | What is counted on the shared tables is what the tenant's own tables hold |
| EventSeries.GroupingExists | apps/api/src/modules/dashboard/application/queries/get-event-series/get-event-series.handler.ts:56-77 | Every table can be grouped by day, as the handler takes the database to do |
| EventSeries.IndexByDay | apps/api/src/modules/dashboard/application/queries/get-event-series/get-event-series.handler.ts:93-99 | The index holds the last count given for each day |
| EventSeries.Fill | apps/api/src/modules/dashboard/application/queries/get-event-series/get-event-series.handler.ts:79-90 | One point per day of the window, zero where the index has nothing |
| EventSeries.IndexCounts | apps/api/src/modules/dashboard/application/queries/get-event-series/get-event-series.handler.ts:56-77 | Grouping by day text and indexing amount to counting the times of the day |
| EventSeries.PointsPartitionWindow | apps/api/src/modules/dashboard/application/queries/get-event-series/get-event-series.handler.ts:79-90 | The points add up to the counts over the whole window |
| EventSeries.WindowEndsToday | apps/api/src/modules/dashboard/application/queries/get-event-series/get-event-series.handler.ts:47-48 | The days are successive, and the last is today exactly outside the years 0 to 99 |
| Slug.Slugify | scripts/bootstrap-platform-admin.ts:108-123 | For every way of folding a name, the steps of the derivation yield the explicit slug or the one derived from the folded name |
| Slug.CoreIsWords | scripts/bootstrap-platform-admin.ts:116-118 | Before padding and cutting, the slug is the maximal runs of ASCII letters and digits of the name without marks, in their order, with one hyphen between two runs |
| Slug.StripMarksKeeps | scripts/bootstrap-platform-admin.ts:116-116 | Removing the marks U+0300 to U+036F keeps exactly the other characters, in their order |
| Slug.SlugOfCore | scripts/bootstrap-platform-admin.ts:120-121 | Fewer than three characters get -org behind them, up to 63 stay, more are cut to 63, or to 62 where a hyphen would come last |
| Slug.DerivedSlugAcceptedIff | scripts/bootstrap-platform-admin.ts:112-122 | The derived slug is accepted and left as it is exactly when the folded name has an ASCII letter or digit; then it has 3 to 63 characters and no double hyphen |
| Slug.DerivationIsIdempotentIff | scripts/bootstrap-platform-admin.ts:112-122 | Deriving twice changes nothing, exactly for the same names |
| Slug.ExplicitSlugAcceptedIff | apps/api/src/modules/tenant-core/domain/value-objects/tenant-slug.vo.ts:9-23 | An explicit slug is stored as given exactly when it matches the pattern |
| Slug.GoodSlugIsFixed | apps/api/src/modules/tenant-core/domain/value-objects/tenant-slug.vo.ts:15-23 | A good slug is a fixed point of both the derivation and the value object |
| Accounts.UserAggregate.Activate | apps/api/src/modules/identity/domain/aggregates/user.aggregate.ts:64-71 | Only a user pending verification becomes active |
| Accounts.UserAggregate.RecordLogin | apps/api/src/modules/identity/domain/aggregates/user.aggregate.ts:73-76 | Sets the last login and nothing else |
| Accounts.OrganizationAggregate.MarkProvisioned | apps/api/src/modules/tenant-core/domain/aggregates/organization.aggregate.ts:99-117 | Only an organization being provisioned becomes active, and only then the event is added |
| Accounts.AuthenticateHandler.Execute | apps/api/src/modules/identity/application/commands/authenticate/authenticate.handler.ts:56-158 | For every valid directory a login succeeds exactly when a user has the address and password and is active, and the organization of the named slug, or else the first that they own, is theirs and active; the claims and expiry of both tokens; the recorded login |
| Accounts.LoginIff | apps/api/src/modules/identity/application/commands/authenticate/authenticate.handler.ts:56-158 | The same condition on the rows of users and organizations, for every valid directory |
| Accounts.RefusalIff | apps/api/src/modules/identity/application/commands/authenticate/authenticate.handler.ts:57-97 | Who is told the status of the account, who that of the organization, and that everybody else gets one answer |
| Accounts.EmailIff | apps/api/src/modules/identity/domain/value-objects/email.vo.ts:9-24 | An address is accepted, trimmed and in lower case, exactly when it has one @, no white space, a dot inside its domain and at most 320 characters |
| Accounts.TokenOpensOwnTenant | apps/api/src/modules/identity/application/commands/authenticate/authenticate.handler.ts:57-135 | Whatever slug the caller names, both tokens name an active organization that the authenticated, active user owns |
| Accounts.LoginChangesOnlyLastLogin | apps/api/src/modules/identity/application/commands/authenticate/authenticate.handler.ts:99-100 | A login changes nothing but the last login of the user it lets in, and a refused one nothing |
| Accounts.SaveUserKeepsValid | apps/api/src/modules/identity/infrastructure/persistence/user.repository.ts:40-44 | Saving a user keeps keys unique and every owner present |
| Accounts.ProvisionKeepsValid | apps/api/src/modules/tenant-core/infrastructure/persistence/organization.repository.ts:73-83 | Provisioning keeps keys unique and every owner present |
| Bootstrap.BootstrapScript.ProvisionAdminUser | scripts/bootstrap-platform-admin.ts:175-203 | The user is reused or created active; an error leaves the store alone |
| Bootstrap.BootstrapScript.ProvisionOrganization | scripts/bootstrap-platform-admin.ts:135-173 | The organization is reused or created active; an error leaves the store alone |
| Bootstrap.BootstrapScript.Execute | scripts/bootstrap-platform-admin.ts:205-248 | Configuration, production check, user, organization, in that order |
| Bootstrap.ConfigTells | scripts/bootstrap-platform-admin.ts:74-103 | What is taken from which variable, the defaults, and which variables are reported missing |
| Bootstrap.CleanRun | scripts/bootstrap-platform-admin.ts:74-248 | From an empty store, by the environment alone: exactly when a run succeeds, and each column of the two rows that it then stores |
| Bootstrap.RunFromEmptyIff | scripts/bootstrap-platform-admin.ts:74-106 | From an empty store a run succeeds exactly with usable settings, and then leaves one active user owning one active organization |
| Bootstrap.MinimalSettingsIff | scripts/bootstrap-platform-admin.ts:74-106 | With neither slug nor plan given, settings suffice exactly when the email is valid, the password has eight characters, both names are there and short enough, and the tenant name has an ASCII letter or digit |
| Bootstrap.Recovery | scripts/bootstrap-platform-admin.ts:135-248 | Any number of runs cut off before, between or after the two writes, at least one of them complete, leave the store of one clean run up to generated ids, salts and times; login then yields a token for that tenant |
| Bootstrap.RerunWritesNothing | scripts/bootstrap-platform-admin.ts:143-149 | After a successful run from any store, another writes nothing and reports the same two ids |
| Bootstrap.OwnerLinkedIff | scripts/bootstrap-platform-admin.ts:229-241 | The reported organization belongs to the reported user exactly when it was created or was theirs already |
| Bootstrap.LoginAfterRunIff | apps/api/src/modules/identity/application/commands/authenticate/authenticate.handler.ts:56-135 | After a successful run from any store, the configured credentials yield a token for the reported tenant exactly when the user and organization that the run found were usable already |
| Bootstrap.HalfDoneIff | scripts/bootstrap-platform-admin.ts:205-248 | From an empty store a run fails after its first write exactly when the settings of the user are good and those of the organization are not; then it leaves the administrator alone in the store |
| Bootstrap.RunKeepsValid | scripts/bootstrap-platform-admin.ts:205-248 | Every run, however it ends, keeps keys unique and every owner present |

## Left out

- AuditLog.AuditEventRepository.Query: page and limit are integers, and what the database driver answers to a negative offset or to a limit below one is a parameter.
- OutboxTable.OutboxEntryRepository.Save: one atomic write of the whole row. The object-relational mapper reads the row, compares, and updates the columns that differ, so two overlapping saves can mix their columns: a failed row could then show fewer than five attempts. OutboxProtocol.OutboxSafety and the other theorems on overlapping batches hold for saves that are atomic. The same goes for the saves of workflow definitions and executions.
- OutboxDrain.NoStarvation: assumes saves that succeed and batches that do not overlap; rows created at the same instant keep one fixed order. The safety theorem needs none of this, its reads may order such rows at will.
- OutboxDrain.Drain: the same assumptions.
- AuditPaging.NothingIsMissed: rows that occurred at the same instant are assumed to keep their relative order between fetches; the query orders by time alone.
- Calendar.StartOfUtcDayIff: time values are unbounded integers, without the range limit of JavaScript dates.
- EventSeries.Execute: times are whole milliseconds, and the database's day text is taken to equal the handler's; before year 1 the two spell years differently.
- Slug.Slugify: `toLowerCase` and NFKD normalization are a function that is given. Strings are sequences of characters, not UTF-16 code units.
- Slug.ExplicitSlugAcceptedIff: lower-casing here changes ASCII letters only, so characters outside ASCII whose lower case is an ASCII letter (the Kelvin sign) are not captured; the same goes for email addresses.
- Accounts.AuthenticateHandler.Execute: a hash is the password it was made from with a salt; that bcrypt looks at the first 72 bytes only, and the signing of tokens, are not modelled; a token is what it claims. When a user owns several organizations and names none, the first in table order stands for the database's choice.
- RedisCodec.SingleRoundTrip: that JSON text parses back to the payload is an assumption about the payload, stated as a hypothesis; numbers are integers.
- RedisGroup.GroupSafety: trimming of streams by MAXLEN is not modelled, nor is progress: a blocking read on one connection can hold up the other streams, and unacknowledged messages are not read again, so at-least-once handling is not claimed.
- InMemoryBus.InMemoryEventBus.Publish: what handlers do is given as the registry calls each of them makes while it runs; what nested publications record is the subject of CallTree.
- WorkflowStore.TenantsAreIsolated: generated ids are new, which is a hypothesis on the run; rows created at the same instant keep one fixed order.
- WorkflowStore.WorkflowHandlers.Trigger: what the bus does with the event is the subject of the bus modules.
- IngestRequest.BuildRequest: the check for a configured base URL, the HTTP call, its timeout and its status codes are the three ways an ingest ends in the outbox protocol.
- Publication of tenant events: the handlers iterate events of an aggregate that was just loaded back and has none, so nothing is stated about their publication.
- Start, complete and fail of executions: no handler calls them, and complete and fail accept any status, so terminal statuses are not final.
- Concurrent bootstrap runs, and organizations read through the tenant-root guard.
- Column lengths other than those of names, slugs and emails.
- Nest wiring, TypeORM, Postgres and ioredis beyond the behaviour stated for each; roles, plan limits, DTOs, metrics, configuration, Terraform.
