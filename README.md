# Jasper durable envelope store — a Dafny model

Jasper is a .NET messaging framework. Messages travel inside *envelopes*.
When durability is switched on, envelopes are kept in three database tables:

- incoming envelopes, keyed by id, with status, owner node, execution time,
  attempts and body;
- outgoing envelopes, keyed by id, with owner node, destination, deliver-by
  time and body;
- dead letters, keyed by id, with the error report columns and body.

Every node owns the rows it is working on. Owner 0 means "any node".
A periodic *dormant node reassignment* tick runs on each node. It hands the
rows of nodes that have stopped back to owner 0. It uses PostgreSQL advisory
locks so that only one node runs the tick at a time, and so that rows of a
node that is still alive (and still holds its own lock) are left alone.

This project models that core in Dafny:

| module (file) | models |
|---|---|
| `Common` (common.dfy) | Option, Result and Outcome wrappers; bytes |
| `Envelopes` (envelope.dfy) | the `Envelope` class: receipt, derived envelopes, the send-once guard, ping envelopes |
| `Schema` (schema.dfy) | the three tables as `map`s keyed by id, and batch inserts that honour the primary key |
| `Sessions` (storage_session.dfy) | the advisory-lock table and the durable storage session, with a transaction snapshot that rollback restores |
| `Persistence` (persistence.dfy) | `DatabaseBackedEnvelopePersistence`: every SQL statement as a set-level update over the tables |
| `StorageAdmin` (storage_admin.dfy) | `PostgresqlEnvelopeStorageAdmin`: clearing, counting, dead-letter lookup, views, releasing ownership |
| `Durability` (node_reassignment.dfy) | `NodeReassignment.ExecuteAsync`, the reassignment tick |
| `AzureServiceBus` (azure_sender.dfy) | `AzureServiceBusSender`: the two-stage serialize/send pipeline and its latch |
| `Handlers` (handler_graph.dfy) | `HandlerGraph`: grouping calls into chains, memoised lookup, forwarders, the message-type registry |
| `RouteHandling` (route_handler.dfy) | `RouteHandler.ToPathSegments` and `ToRelativePath` |

Classes whose fields the source updates are Dafny classes. Tables are `map`
fields that the methods reassign. Thrown exceptions are `Result`/`Outcome`
values. The database, the lock table and the SDK are modelled as state, and
their nondeterminism is passed in as parameters:

- whether a send is delivered;
- whether serialization succeeds;
- whether a callback throws;
- where the reassignment tick fails.

The SQL strings determine the table operations. Two of them behave in ways
that are easy to misread, and the model follows the code:

- `IncrementIncomingEnvelopeAttempts` *assigns* the envelope's attempts
  count. It does not add one.
- `DeleteByDestination` deletes only rows owned by node 0.

Where a description of the system and the code disagree, the model follows
the code:

- `Enqueue` after `LatchAndDrain` posts to an ActionBlock that has been
  completed. The block declines the envelope, so it is dropped; it is not
  queued.
- A `Successful` callback that throws is caught by the same `try` as a failed
  send, so the callback then also hears `ProcessingFailure`.

## Model

| member | source | states |
|---|---|---|
| Envelopes.Envelope.Create | src/Jasper/Envelope.Internals.cs:88-97 | `new Envelope` as ForSend and ForPing use it: the given id, every other field at its default (status Outgoing, the first status, and owner 0), not routed, not sent, no message and no causal ids |
| Envelopes.Envelope.MarkReceived | src/Jasper/Envelope.Internals.cs:25-37 | a delayed envelope becomes Scheduled with owner 0 (any node); any other becomes Incoming, owned by the receiving node |
| Envelopes.Envelope.ForSend | src/Jasper/Envelope.Internals.cs:88-97 | the child's correlation and causation ids are both the parent's id as text; it keeps the parent's saga id and carries the new message |
| Envelopes.Envelope.CreateForResponse | src/Jasper/Envelope.Internals.cs:73-86 | both of the response's causal ids are the parent's correlation id; only a response of the requested reply type goes to the reply address and carries the accepted content types |
| Envelopes.Envelope.MemberwiseClone | src/Jasper/Envelope.Internals.cs:99-107 | a shallow copy equal to its source in every field |
| Envelopes.Envelope.CloneForWriter | src/Jasper/Envelope.Internals.cs:99-107 | a fresh envelope that equals the original in every field except the writer and content type, which come from the writer; it has its own copy of the headers |
| Envelopes.Envelope.Send | src/Jasper/Envelope.Internals.cs:115-129 | a second send fails with "already enqueued"; an unrouted envelope fails and stays unsent; otherwise it is handed to its sending agent for store-and-forward and marked as sent |
| Envelopes.Envelope.QuickSend | src/Jasper/Envelope.Internals.cs:131-140 | the same guard as Send, with a quick in-memory hand-off instead |
| Envelopes.SendTwice | src/Jasper/Envelope.Internals.cs:115-140 | of two sends of one envelope, in any combination of Send and QuickSend, at most one succeeds, and after a success the other fails with "already enqueued" |
| Envelopes.Envelope.IsPing | src/Jasper/Envelope.Internals.cs:147-150 | an envelope is a ping exactly when its message type is the ping message type; ForPing states that it holds for every ping envelope |
| Envelopes.Envelope.ForPing | src/Jasper/Envelope.Internals.cs:142-164 | a ping envelope is an outgoing envelope for the given destination, carrying the ping message type, data and content type, and IsPing holds for it |
| Schema.InsertRowsOutcome | src/Jasper.Persistence.Postgresql/Schema/PostgresqlEnvelopeStorageAdmin.cs:20-63 | with the id as primary key, a batch insert succeeds exactly when its ids are distinct and new; then it adds exactly those rows and keeps all others; a failure names an id of the batch |
| Schema.EnvelopeDatabase.constructor | src/Jasper.Persistence.Postgresql/Schema/PostgresqlEnvelopeStorageAdmin.cs:20-63 | a new database has three empty tables |
| Schema.EnvelopeDatabase.Restore | src/Jasper/Persistence/Durability/NodeReassignment.cs:44-48 | a rollback puts all three tables back exactly as in the snapshot |
| Sessions.TryAcquire | src/Jasper.Persistence.Testing/Marten/Persistence/Resiliency/advisory_lock_usage.cs:28-45 | a try-lock succeeds exactly when the lock is free or held by the same session; on success the session holds it; no other lock changes |
| Sessions.Release | src/Jasper.Persistence.Testing/Marten/Persistence/Resiliency/advisory_lock_usage.cs:35-45 | releasing removes the lock only when this session holds it |
| Sessions.EndTransaction | src/Jasper.Persistence.Testing/Marten/Persistence/Resiliency/advisory_lock_usage.cs:62-85 | ending a transaction frees exactly that session's transaction-scoped locks |
| Sessions.LockExclusion | src/Jasper.Persistence.Testing/Marten/Persistence/Resiliency/advisory_lock_usage.cs:62-85 | a lock held by one session cannot be taken by another; it can be once released (session scope) or once the holder's transaction ends (transaction scope) |
| Sessions.LocksIndependent | src/Jasper.Persistence.Testing/Marten/Persistence/Resiliency/advisory_lock_usage.cs:102-114 | taking or releasing one lock id does not change whether another id is available |
| Sessions.AdvisoryLocks.constructor | src/Jasper.Persistence.Testing/Marten/Persistence/Resiliency/advisory_lock_usage.cs:137-150 | no lock is held at first |
| Sessions.DurableStorageSession.constructor | src/Jasper.Persistence.Database/DatabaseBackedEnvelopePersistence.cs:49-52 | a new session has no open transaction |
| Sessions.DurableStorageSession.BeginAsync | src/Jasper/Persistence/Durability/NodeReassignment.cs:21 | beginning a transaction takes a snapshot of the tables |
| Sessions.DurableStorageSession.TryGetGlobalLock | src/Jasper.Persistence.Testing/Marten/Persistence/Resiliency/advisory_lock_usage.cs:28-45 | the session-scoped try-lock behaves as TryAcquire |
| Sessions.DurableStorageSession.TryGetGlobalTxLock | src/Jasper.Persistence.Testing/Marten/Persistence/Resiliency/advisory_lock_usage.cs:137-150 | the transaction-scoped try-lock behaves as TryAcquire |
| Sessions.DurableStorageSession.ReleaseGlobalLock | src/Jasper.Persistence.Testing/Marten/Persistence/Resiliency/advisory_lock_usage.cs:35-45 | the release behaves as Release |
| Sessions.DurableStorageSession.RollbackAsync | src/Jasper.Persistence.Testing/Marten/Persistence/Resiliency/advisory_lock_usage.cs:62-85 | a rollback restores the snapshot and frees the transaction's locks; without a transaction nothing changes |
| Sessions.DurableStorageSession.CommitAsync | src/Jasper/Persistence/Durability/NodeReassignment.cs:54 | a commit keeps the tables as they are, closes the transaction and frees its locks |
| Persistence.DatabaseBackedEnvelopePersistence.constructor | src/Jasper.Persistence.Database/DatabaseBackedEnvelopePersistence.cs:31-94 | the store works on its session's database |
| Persistence.DatabaseBackedEnvelopePersistence.DeleteIncomingEnvelope | src/Jasper.Persistence.Database/DatabaseBackedEnvelopePersistence.cs:109-115 | exactly the envelope's incoming row is gone |
| Persistence.DatabaseBackedEnvelopePersistence.ScheduleExecution | src/Jasper.Persistence.Database/DatabaseBackedEnvelopePersistence.cs:118-133 | it fails, changing nothing, exactly when some envelope has no execution time; otherwise each batch envelope's row is Scheduled, with owner 0, its execution time and its attempts; rows outside the batch are unchanged and no row is added |
| Persistence.ScheduleOutcome | src/Jasper.Persistence.Database/DatabaseBackedEnvelopePersistence.cs:118-133 | a schedule batch keeps the table's keys and leaves unnamed rows alone; a named row becomes Scheduled with owner 0 and the same body, and the last update for an id sets its time and attempts |
| Persistence.DatabaseBackedEnvelopePersistence.IncrementIncomingEnvelopeAttempts | src/Jasper.Persistence.Database/DatabaseBackedEnvelopePersistence.cs:141-147 | the row's attempts becomes the envelope's attempts (an assignment); no other row or column changes; a missing row changes nothing (SQL text at lines 40-41 of the same file) |
| Persistence.DatabaseBackedEnvelopePersistence.StoreIncoming | src/Jasper.Persistence.Database/DatabaseBackedEnvelopePersistence.cs:149-159 | it adds exactly one row keyed by the envelope id, carrying its status, owner, execution time, attempts and body; an existing id fails on the primary key and changes nothing (SQL text at lines 42-47 of the same file) |
| Persistence.DatabaseBackedEnvelopePersistence.StoreIncomingBatch | src/Jasper.Persistence.Database/DatabaseBackedEnvelopePersistence.cs:161-173 | the batch succeeds exactly when its ids are distinct and new; then every envelope has its row and old rows are kept; otherwise nothing changes |
| Persistence.BuildIncomingStorageCommand | src/Jasper.Persistence.Database/DatabaseBackedEnvelopePersistence.cs:202-223 | one insert per envelope, in order, each carrying that envelope's columns |
| Persistence.CommandIds | src/Jasper.Persistence.Database/DatabaseBackedEnvelopePersistence.cs:202-223 | the ids of a built command are the envelopes' ids, and they are distinct, or new to a table, exactly when the envelopes' ids are |
| Persistence.DatabaseBackedEnvelopePersistence.ScheduleJob | src/Jasper.Persistence.Database/DatabaseBackedEnvelopePersistence.cs:176-182 | the envelope becomes Scheduled with owner 0, whatever it was before, and is then stored as StoreIncoming stores it |
| Persistence.DatabaseBackedEnvelopePersistence.ClearAllStoredMessages | src/Jasper.Persistence.Database/DatabaseBackedEnvelopePersistence.cs:227-232 | all three tables are empty |
| Persistence.ReadyToExecute | src/Jasper.Persistence.Database/DatabaseBackedEnvelopePersistence.cs:260-266 | exactly the rows that are Scheduled with an execution time at or before now are returned, each with its body and attempts (SQL text at lines 57-58 of the same file) |
| Persistence.DatabaseBackedEnvelopePersistence.LoadScheduledToExecute | src/Jasper.Persistence.Database/DatabaseBackedEnvelopePersistence.cs:260-266 | only Scheduled rows of the incoming table are returned, each with its body and attempts; a row whose execution time is after now is never returned (ReadyToExecute gives the exact set) |
| Persistence.ReadyToExecuteGrows | src/Jasper.Persistence.Database/DatabaseBackedEnvelopePersistence.cs:57-58 | a job ready at one time is still ready at any later time |
| Persistence.ScheduledRowDueAt | src/Jasper.Persistence.Database/DatabaseBackedEnvelopePersistence.cs:118-133 | a row just scheduled for time t is ready at now exactly when t <= now (SQL text at lines 57-58 of the same file) |
| Persistence.DatabaseBackedEnvelopePersistence.ReassignDormantNodeToAnyNode | src/Jasper.Persistence.Database/DatabaseBackedEnvelopePersistence.cs:268-273 | the node's rows in both tables go to owner 0 (SQL text at lines 67-77 of the same file) |
| Persistence.ReleaseEffect | src/Jasper.Persistence.Database/DatabaseBackedEnvelopePersistence.cs:67-77 | releasing a set of owners keeps every key, sets owner 0 on exactly their rows and changes no other column or row |
| Persistence.ReleaseOneMore | src/Jasper.Persistence.Database/DatabaseBackedEnvelopePersistence.cs:67-77 | releasing owners one at a time is the same as releasing them all at once |
| Persistence.DatabaseBackedEnvelopePersistence.FindUniqueOwners | src/Jasper.Persistence.Database/DatabaseBackedEnvelopePersistence.cs:275-290 | the result lists, without repeats, exactly the owners found in either table, never 0 and never the current node (SQL text at lines 62-65 of the same file) |
| Persistence.UniqueOwnersMembers | src/Jasper.Persistence.Database/DatabaseBackedEnvelopePersistence.cs:62-65 | an owner is a candidate exactly when some incoming or outgoing row has it and it is neither 0 nor the current node |
| Persistence.ReleaseRemovesCandidates | src/Jasper.Persistence.Database/DatabaseBackedEnvelopePersistence.cs:62-77 | after releasing a set of owners, the candidate owners are the old ones minus that set |
| Persistence.DatabaseBackedEnvelopePersistence.DeleteByDestination | src/Jasper.Persistence.Database/DatabaseBackedEnvelopePersistence.cs:306-312 | exactly the outgoing rows for that destination owned by node 0 are deleted; rows owned by a live node survive unchanged (SQL text at lines 82-83 of the same file) |
| Persistence.DatabaseBackedEnvelopePersistence.DeleteOutgoing | src/Jasper.Persistence.Database/DatabaseBackedEnvelopePersistence.cs:315-321 | exactly the envelope's outgoing row is gone |
| Persistence.Destinations | src/Jasper.Persistence.Database/DatabaseBackedEnvelopePersistence.cs:79-80 | a destination is listed exactly when some outgoing row has it |
| Persistence.DatabaseBackedEnvelopePersistence.FindAllDestinations | src/Jasper.Persistence.Database/DatabaseBackedEnvelopePersistence.cs:323-338 | the result lists every destination of the outgoing table once |
| Persistence.DatabaseBackedEnvelopePersistence.StoreOutgoing | src/Jasper.Persistence.Database/DatabaseBackedEnvelopePersistence.cs:343-352 | an envelope without destination fails; an existing id fails on the primary key; otherwise exactly one row is added, with the given owner, the destination, deliver-by and body; a failure changes nothing (SQL text at lines 90-91 of the same file) |
| Persistence.BuildOutgoingStorageCommand | src/Jasper.Persistence.Database/DatabaseBackedEnvelopePersistence.cs:369-388 | it fails exactly when some envelope has no destination; otherwise it builds one insert per envelope, in order, with the given owner |
| Persistence.DatabaseBackedEnvelopePersistence.StoreOutgoingBatch | src/Jasper.Persistence.Database/DatabaseBackedEnvelopePersistence.cs:354-358 | it succeeds exactly when every envelope has a destination and the ids are distinct and new; then every envelope has its row and old rows are kept; otherwise nothing changes |
| Persistence.DatabaseBackedEnvelopePersistence.StoreOutgoingInTransaction | src/Jasper.Persistence.Database/DatabaseBackedEnvelopePersistence.cs:360-367 | the same all-or-nothing batch insert as StoreOutgoingBatch, owned by this node: it succeeds exactly when every envelope has a destination and the ids are distinct and new; then each envelope has a row with this node as owner and its destination, deliver-by and body, and old rows are kept; otherwise nothing changes |
| Persistence.InsertCountsOnce | src/Jasper.Persistence.Postgresql/Schema/PostgresqlEnvelopeStorageAdmin.cs:184-217 | adding a new incoming row raises the count of its status by one and leaves the other counts alone |
| StorageAdmin.StatusCounts | src/Jasper.Persistence.Postgresql/Schema/PostgresqlEnvelopeStorageAdmin.cs:184-217 | the status grouping has an entry exactly for each status present, counting the rows with that status |
| StorageAdmin.PostgresqlEnvelopeStorageAdmin.GetPersistedCounts | src/Jasper.Persistence.Postgresql/Schema/PostgresqlEnvelopeStorageAdmin.cs:184-217 | Incoming and Scheduled are the numbers of incoming rows with that status, and Outgoing is the number of outgoing rows |
| StorageAdmin.ReadDeadLetter | src/Jasper.Persistence.Postgresql/Schema/PostgresqlEnvelopeStorageAdmin.cs:219-249 | no row gives null; a row with a NULL text column fails reading that column; otherwise the report has the id and the row's columns |
| StorageAdmin.DeadLetterRoundTrip | src/Jasper.Persistence.Postgresql/Schema/PostgresqlEnvelopeStorageAdmin.cs:219-249 | a report stored as a dead-letter row is read back unchanged |
| StorageAdmin.IncomingViews | src/Jasper.Persistence.Postgresql/Schema/PostgresqlEnvelopeStorageAdmin.cs:251-259 | one envelope per incoming row, with the row's body, status and owner |
| StorageAdmin.OutgoingViews | src/Jasper.Persistence.Postgresql/Schema/PostgresqlEnvelopeStorageAdmin.cs:261-269 | one envelope per outgoing row, each with status Outgoing and the row's body and owner |
| StorageAdmin.PostgresqlEnvelopeStorageAdmin.constructor | src/Jasper.Persistence.Postgresql/Schema/PostgresqlEnvelopeStorageAdmin.cs:71-82 | the admin works on the given database |
| StorageAdmin.PostgresqlEnvelopeStorageAdmin.ClearAllPersistedEnvelopes | src/Jasper.Persistence.Postgresql/Schema/PostgresqlEnvelopeStorageAdmin.cs:122-128 | the outgoing, incoming and dead-letter tables are all empty |
| StorageAdmin.PostgresqlEnvelopeStorageAdmin.TruncateEnvelopeData | src/Jasper.Persistence.Postgresql/Schema/PostgresqlEnvelopeStorageAdmin.cs:130-154 | truncation empties all three tables |
| StorageAdmin.PostgresqlEnvelopeStorageAdmin.RebuildSchemaObjects | src/Jasper.Persistence.Postgresql/Schema/PostgresqlEnvelopeStorageAdmin.cs:156-166 | afterwards all three tables exist and are empty |
| StorageAdmin.PostgresqlEnvelopeStorageAdmin.ReleaseAllOwnership | src/Jasper.Persistence.Postgresql/Schema/PostgresqlEnvelopeStorageAdmin.cs:271-278 | every row of both tables gets owner 0 and nothing else changes |
| StorageAdmin.ReleasedStoreHasNoOwners | src/Jasper.Persistence.Postgresql/Schema/PostgresqlEnvelopeStorageAdmin.cs:271-278 | once all ownership is released, the reassignment tick finds no candidate owner |
| Durability.NodeReassignment.constructor | src/Jasper/Persistence/Durability/NodeReassignment.cs:19-55 | the tick is bound to this node's id and the reassignment lock id |
| Durability.NodeReassignment.ExecuteAsync | src/Jasper/Persistence/Durability/NodeReassignment.cs:19-55 | without the reassignment lock, the transaction is rolled back and nothing changes. Otherwise the lock is released on every path and the tick ends with no transaction. After a fault no row changes. A commit releases exactly the candidate owners whose lock could be taken |
| Durability.NodeReassignment.ReassignDormantOwners | src/Jasper/Persistence/Durability/NodeReassignment.cs:30-48 | a fault rolls back the whole loop; otherwise the rows of every candidate whose lock was free are released, and only those |
| Durability.NodeReassignment.ReassignOwner | src/Jasper/Persistence/Durability/NodeReassignment.cs:34-41 | one owner (never 0, never this node) is released exactly when its transaction lock is obtained; an owner locked elsewhere keeps all its rows |
| Durability.ReclaimableStep | src/Jasper/Persistence/Durability/NodeReassignment.cs:34-41 | the owners released after one more candidate are the earlier ones plus that candidate, when its lock was free |
| Durability.OwnerLockAvailable | src/Jasper/Persistence/Durability/NodeReassignment.cs:38 | during the loop, a candidate's lock is free exactly when it was free before the tick (the tick's own lock aside) |
| Durability.TickLeavesLocks | src/Jasper/Persistence/Durability/NodeReassignment.cs:44-54 | commit or rollback, with the reassignment lock released, leaves exactly the locks held before the tick, minus that lock |
| AzureServiceBus.AzureServiceBusSender.constructor | src/Jasper.AzureServiceBus/AzureServiceBusSender.cs:43-45 | a new sender is unlatched, not started and has empty queues |
| AzureServiceBus.AzureServiceBusSender.Start | src/Jasper.AzureServiceBus/AzureServiceBusSender.cs:48-70 | an open connection, the callback, and fresh empty serialization and send stages |
| AzureServiceBus.AzureServiceBusSender.Enqueue | src/Jasper.AzureServiceBus/AzureServiceBusSender.cs:72-77 | the envelope joins the serialization stage, unless that stage has been completed |
| AzureServiceBus.AzureServiceBusSender.QueuedCount | src/Jasper.AzureServiceBus/AzureServiceBusSender.cs:44 | the number of envelopes waiting in the send stage; StepSerialization and StepSend state how it changes |
| AzureServiceBus.AzureServiceBusSender.StepSerialization | src/Jasper.AzureServiceBus/AzureServiceBusSender.cs:53-64 | the oldest envelope leaves serialization; if it serializes it joins the send stage and QueuedCount grows by one; if not, the failure is logged with its id and it is dropped (QueuedCount is at line 44 of the same file) |
| AzureServiceBus.AzureServiceBusSender.StepSend | src/Jasper.AzureServiceBus/AzureServiceBusSender.cs:111-131 | the oldest queued envelope is sent (QueuedCount drops by one); a delivery notifies Successful; a failed send or a throwing Successful notifies ProcessingFailure; an exception from that is logged (QueuedCount is at line 44 of the same file) |
| AzureServiceBus.AzureServiceBusSender.LatchAndDrain | src/Jasper.AzureServiceBus/AzureServiceBusSender.cs:79-92 | latched, connection closed, both stages completed, circuit-broken logged |
| AzureServiceBus.AzureServiceBusSender.Unlatch | src/Jasper.AzureServiceBus/AzureServiceBusSender.cs:94-100 | circuit-resumed logged, restarted with the same callback and unlatched |
| AzureServiceBus.AzureServiceBusSender.Ping | src/Jasper.AzureServiceBus/AzureServiceBusSender.cs:102-107 | a ping envelope is sent directly; it succeeds exactly when delivered on an open connection |
| AzureServiceBus.LatchedSenderSendsNothing | src/Jasper.AzureServiceBus/AzureServiceBusSender.cs:79-92 | once latched, enqueueing and stepping both stages transmits nothing and never grows the send queue |
| Handlers.HandlerGraph.constructor | src/Jasper/Runtime/Handlers/HandlerGraph.cs:40-47 | a new graph has no calls, chains or registered types, and the Envelope type is handled by the scheduled-send handler |
| Handlers.HandlerGraph.AddRange | src/Jasper/Runtime/Handlers/HandlerGraph.cs:97-109 | after grouping, adding calls fails and changes nothing; before it, the calls are appended |
| Handlers.CallsForMembers | src/Jasper/Runtime/Handlers/HandlerGraph.cs:211-214 | a type's calls are exactly the calls for that type |
| Handlers.GroupConcrete | src/Jasper/Runtime/Handlers/HandlerGraph.cs:211-214 | one chain per concrete message type, holding that type's calls in order |
| Handlers.AbstractForMembers | src/Jasper/Runtime/Handlers/HandlerGraph.cs:216-222 | a chain gains exactly the non-concrete calls that could handle its type |
| Handlers.AttachAbstractCalls | src/Jasper/Runtime/Handlers/HandlerGraph.cs:216-222 | every chain gains the abstract calls that can handle its type, appended, and no chain is added |
| Handlers.HandlerGraph.Group | src/Jasper/Runtime/Handlers/HandlerGraph.cs:202-226 | grouping happens once; the first time, CanHandle becomes true for exactly the concrete call types as well; each has its calls followed by its matching abstract calls (CanHandle is at lines 246-249 of the same file) |
| Handlers.HandlerGraph.CanHandle | src/Jasper/Runtime/Handlers/HandlerGraph.cs:246-249 | true exactly for the types that have a chain; Group states which types gain one |
| Handlers.HandlerGraph.HandlerFor | src/Jasper/Runtime/Handlers/HandlerGraph.cs:128-165 | a memoised answer, hit or miss, is returned unchanged; otherwise the chain's handler or a miss is returned and memoised |
| Handlers.HandlerGraph.ChainFor | src/Jasper/Runtime/Handlers/HandlerGraph.cs:117-120 | the chain of the memoised handler, if there is one |
| Handlers.ForwardersTouchOnlySources | src/Jasper/Runtime/Handlers/HandlerGraph.cs:228-244 | forwarding changes the chain and handler of forwarded source types only |
| Handlers.ForwardersRegisterMatched | src/Jasper/Runtime/Handlers/HandlerGraph.cs:228-244 | a source is registered with a forwarding handler exactly when its destination has a chain |
| Handlers.HandlerGraph.AddForwarders | src/Jasper/Runtime/Handlers/HandlerGraph.cs:228-244 | the loop applies the forwarders in order, as ApplyForwarders specifies |
| Handlers.HandlerGraph.TryFindMessageType | src/Jasper/Runtime/Handlers/HandlerGraph.cs:197-200 | the type registered under a name, if any; RegisterMessageType states the round trip |
| Handlers.HandlerGraph.RegisterMessageType | src/Jasper/Runtime/Handlers/HandlerGraph.cs:251-254 | the type is found under its own name afterwards, and every other name resolves as before (TryFindMessageType is at lines 197-200 of the same file) |
| RouteHandling.SkipCount | src/Jasper/Http/Model/RouteHandler.cs:59-67 | skipping clamps the start to the bounds of the array |
| RouteHandling.ToPathSegments | src/Jasper/Http/Model/RouteHandler.cs:64-67 | the segments from the start index on, in order; all of them for a start at or below 0, none past the end |
| RouteHandling.Join | src/Jasper/Http/Model/RouteHandler.cs:61 | `string.Join("/", …)`: no parts give the empty string, and otherwise the result is the parts with exactly one separator between neighbours, so its length is their total length plus one less than their number |
| RouteHandling.ToRelativePath | src/Jasper/Http/Model/RouteHandler.cs:59-62 | the skipped segments joined with "/", for any segments; a single remaining segment comes back unchanged, and when no segment holds "/" splitting the result gives back the remaining segments |
| RouteHandling.Split | src/Jasper/Http/Model/RouteHandler.cs:59-62 | splitting a path always gives at least one part; Split is not in the source: it is the reference inverse of the join, used only to state the join's round trip |
| RouteHandling.JoinEnds | src/Jasper/Http/Model/RouteHandler.cs:59-62 | a joined path starts with its first segment and ends with its last |
| RouteHandling.SplitAfterSegment | src/Jasper/Http/Model/RouteHandler.cs:59-62 | a segment followed by "/" splits off as one part; Split is not in the source: it is the reference inverse of the join, used only to state the join's round trip |
| RouteHandling.SplitSegment | src/Jasper/Http/Model/RouteHandler.cs:59-62 | a segment without "/" splits to itself; Split is not in the source: it is the reference inverse of the join, used only to state the join's round trip |
| RouteHandling.SplitJoin | src/Jasper/Http/Model/RouteHandler.cs:59-62 | splitting a path joined from segments without "/" gives back those segments |
| RouteHandling.JoinSplit | src/Jasper/Http/Model/RouteHandler.cs:59-62 | joining the parts of a split path gives back the path |

## Left out

- ADO.NET and Npgsql plumbing: connections, commands, parameters, readers, the cancellation token and `Dispose`. Every command is one atomic update of the modelled tables.
- Asynchrony: each `Task` is modelled as a completed step; the ActionBlocks are sequences that the caller steps explicitly.
- Serialization: `Envelope.Serialize()` and the message mapper are opaque. The stored body is an uninterpreted byte sequence, and whether serialization succeeds is a parameter.
- Time: clocks are integer parameters. `IsDelayed` is defined outside the modelled files, and is taken to mean "an execution time after now".
- Advisory locks: PostgreSQL counts re-entrant acquisitions; the model keeps one holder per lock id. The lock table's own source is not part of this model; its behaviour follows the advisory-lock tests.
- NodeReassignment.ExecuteAsync: it models faults only inside the `try` block, that is in the owner query and at any owner step. A failure of begin, the lock calls, release or commit is not modelled.
- `AzureServiceBusSender.Start` creates new blocks. Envelopes still queued in the previous blocks when a latched sender restarts are not tracked further.
- AzureServiceBus.AzureServiceBusSender.Enqueue: requires `Start`, because before it the serialization block is null and the call throws.
- AzureServiceBus.AzureServiceBusSender.LatchAndDrain: requires `Start`, because before it the SDK sender is null and closing it throws; the model does not describe that exception.
- AzureServiceBus.AzureServiceBusSender.Ping: requires `Start`, for the same reason: sending on the null SDK sender throws, and the model does not describe that exception.
- AzureServiceBus.AzureServiceBusSender.Unlatch: requires `Start`. An `Unlatch` before `Start` restarts the sender with a null callback, and the model does not describe a sender without a callback.
- AzureServiceBus.AzureServiceBusSender.QueuedCount: requires `Start`, because before it the sending block is null and reading its input count throws; the model does not describe that exception.
- StorageAdmin.PostgresqlEnvelopeStorageAdmin.TruncateEnvelopeData: the retry after a failed truncate is not modelled; the truncate always succeeds.
- Schema management: `DropAll`, `CreateAll`, `RecreateAll` and the table DDL are not modelled; the tables always exist. StorageAdmin.PostgresqlEnvelopeStorageAdmin.RebuildSchemaObjects is therefore modelled by its visible outcome, three empty tables.
- StorageAdmin.PostgresqlEnvelopeStorageAdmin.GetPersistedCounts: counts are unbounded naturals; the conversion to a 32-bit int is not modelled.
- Statuses are a typed column in the model, so an unknown status string, which `Enum.Parse` would reject, cannot occur.
- StorageAdmin.PostgresqlEnvelopeStorageAdmin.LoadDeadLetterEnvelope, AllIncomingEnvelopes and AllOutgoingEnvelopes read only. They are functions over the tables and are specified by ReadDeadLetter, IncomingViews and OutgoingViews. The `AllIncomingEnvelopes` and `AllOutgoingEnvelopes` queries of `DatabaseBackedEnvelopePersistence` (lines 234-258) differ from these: the incoming one also reads `execution_time` and `attempts`, the outgoing one adds a `NULL` column, and both go through `LoadEnvelopes`, which is not part of this model. They are not modelled.
- `Load(destination)`: its SQL comes from the abstract `determineOutgoingEnvelopeSql`, which is not part of this model.
- The abstract members `MoveToDeadLetterStorage`, `DeleteIncomingEnvelopes`, `DeleteOutgoing(Envelope[])`, `ReassignOutgoing` and `DiscardAndReassignOutgoing` have no body in the modelled files. `MoveToDeadLetterStorage(envelope, ex)` only forwards to one of them.
- Persistence.DatabaseBackedEnvelopePersistence.StoreIncomingBatch and StoreOutgoingBatch: the batch is one statement and fails as a whole, as a single implicit transaction does.
- The `Envelope(message, writer)` constructor, headers beyond their identity, and the envelope's remaining properties are not modelled.
- Envelopes.Envelope.ForSend: the side effects of the `Message` property setter are not modelled. `Envelope.cs`, where that setter lives, is not part of this model, and the child's message type is taken to stay at its default (empty) when its message is set.
- HandlerGraph: code generation, `CompileAsync`, policies, `ConfigureHandlerForMessage` and the grouping lock are not modelled. Message types and handler methods are opaque ids, and "is concrete", "could handle" and "type name" are parameters.
- Handlers.HandlerGraph.AddForwarders: `ForwardingHandler` is not part of this model. Its chain is taken to be the destination's chain, copied as a value, so later changes to that chain object are not shared. `AddAbstractedHandler` is taken to append.
- `ScheduledSendEnvelopeHandler` is taken to have no chain.
- RouteHandler: `WriteText` and content negotiation are not modelled.
- Handlers.HandlerGraph.ChainFor: the generic `ChainFor<T>()` and `HandlerFor<T>()` overloads are the same lookups and are not modelled separately.
