# Delivery machinery of an Astarte device: a verified model

An Astarte device keeps working while it is offline. What it sends is kept in a volatile queue or in a
database table, what it sets is kept in a property store, and a background task hands everything over
again when the connection returns. This project models that machinery and proves what it keeps.

- `RetentionIds`, `Retained`, `VolatileQueue`, `StoredTable`: the two packet stores. The ids of packets and
  their database encoding, the bounded queue with expiry, the publish table with its eviction. Both stores
  evict by one specification, `Retained.MakeRoom`.
- `Device`, `Client`: the sequential code of the resend task and of the send paths, as classes over the
  stores, a clock and a transport that may answer anything. Methods are tied to functions of the old state;
  the main results are that resending terminates and is complete.
- `Delivery`: the retention protocol with any number of client handles, the resend task, the event loop and
  the transport interleaved at every `.await` (src/client/mod.rs:327-462, src/connection/resend.rs:84-329,
  src/connection/mod.rs:165-185). `Delivery.Step` lists the steps, `Delivery.Leaves` every reason for which
  a packet may go.
- `Refinement`: the sends of `Client`, and the packets of each round of `Device`, are runs of the steps of
  `Delivery`.
- `PropertySync`, `PropertyStore`: setting and unsetting properties, interleaved with the resend task
  working from its own snapshot, and the in-memory store with its conditional updates.
- `PropertyRefinement`: the property calls of `Client` and `Device` are runs of the steps of `PropertySync`.
- `StartUp`: start-up leaves the state in which `Delivery` and `PropertySync` begin.
- `InstalledInterfaces`, `Introspection`, `IntrospectionRuns`: adding, extending and removing interfaces, the
  cleanup of what is retained for them, and runs that mix those with sends.
- `ConnectionPool`: the pool of read connections and the write connection, as step machines.
- `Aggregate`, `ObjectValidation`, `Types`, `PurgeProperties`, `Backoff`: the algorithms underneath.
  The object as an association list, its validation by a merge of two sorted streams, BSON conversion, the
  purge-properties message, and the back-off with jitter.

Time is in nanoseconds. The deadline of an `Entry` is in nanoseconds in the volatile queue and in whole
seconds in the publish table. The deadline of a volatile item is the store time plus the expiry, computed
when the item is made. `usize` is 64 bits wide.

Where the code does not do what one would expect, the exact condition is proved:

- Aborting the resend task cuts an attempt off exactly when it has one in hand that the transport has not
  accepted (`Delivery.StepCutsIff`, `Delivery.CutRunsIff`). A packet that only the task had in hand then stays
  flagged, and nothing resends it, until the next reset of its store (`Delivery.StrandedUntilReset`,
  `Delivery.ResetFreesStranded`); `Delivery.CutPacketStaysFlagged` is a run that ends so.
- Store and transport agree on a property, in all runs, exactly when nobody sets properties, or when the
  resend task is never spawned while the status is connected and no two client handles can work on that
  property at the same time (`PropertySync.SyncedAtIff`, `PropertySync.LockedRunsIff`,
  `PropertySync.SyncedIffGuardedHandle`). The code ensures neither: a task that fails after the loss of the
  connection was noticed sets the status to connected, and the next task is spawned all the same
  (src/connection/resend.rs:91-121, src/connection/resend.rs:149-160), and handles do not exclude one another.
  `PropertySync.StaleRun` and `PropertySync.RaceRun` are runs that end out of step.
- A set that is answered with success leaves its property unsent exactly when the value was already stored
  and not yet sent, as after a set that the transport refused (`Client.SilentSetIff`, `Client.RetryIsSilent`).
- With the in-memory store, unsetting a property while offline is handed over by the next resend exactly when
  the property was still waiting to be sent; for a completed one it never is (`Client.OfflineUnsetIsSentIff`).
- Retained packets stay sendable, in all runs, exactly when no interface that packets are retained for is
  replaced by a version of properties: the cleanup looks at the kind of the new version
  (`Introspection.AddFitsIff`, `Introspection.ExtendFitsIff`, `IntrospectionRuns.FitsOverRunsIff`).
  `IntrospectionRuns.KindChangeRun` is a run in which they do not.
- Batches behave as adding one interface at a time exactly when their names do not repeat
  (`InstalledInterfaces.OneByOneIffDistinct`), and the introspection sent for an update lists a name twice
  exactly when it was installed (`InstalledInterfaces.ListedOnceIff`).
- An integer accepted for a double mapping is encoded as an integer, which is refused on the way back
  (`Types.AcceptedDataDecodesIff`).
- Objects collected from an iterator may repeat keys, and then equality need not be symmetric
  (`Aggregate.SymmetricIff`).
- The back-off wraps, and its delays shrink, exactly for a maximum beyond 2^63 seconds; its jitter is a share
  of the delay exactly up to a jitter of 100 and up to an `i64` of milliseconds (`Backoff.ClosedFormIff`,
  `Backoff.DelaysGrowIff`, `Backoff.JitterClampIff`, `Backoff.JitterFitsIff`).
- Dropping a caller of the connection pool half-way breaks its bounds, and losing the write connection loses
  the configured capacity (`ConnectionPool.BoundedIff`, `ConnectionPool.OneWriterIff`,
  `ConnectionPool.CapacityKeptIff`).

## Model

| member | source | states |
|---|---|---|
| `Delivery.StepKeepsStructure` | src/client/mod.rs:327-462 | whatever step any process takes, both stores stay within capacity, ids stay unique within and across them, and the table stays in key order |
| `Delivery.StepKeepsBacking` | src/connection/resend.rs:242-329 | no step leaves a flagged packet without an attempt of the current session that is open, accepted, cut off or being taken back |
| `Delivery.SentFlagsAreFounded` | src/client/mod.rs:425-462 | sent-flag soundness over every run of clients, task, resets and acknowledgements from start-up |
| `Delivery.PushVolatileBacked` | src/client/mod.rs:452-454 | a push flagged as sent starts the attempt that backs it |
| `Delivery.UnflagBacked` | src/retention/mod.rs:432-451 | taking back a flag never strands another flagged packet |
| `Delivery.MarkBacked` | src/connection/resend.rs:259-281 | flagging before the attempt keeps every flag backed |
| `Delivery.ResetBacked` | src/connection/resend.rs:387-405 | a reset starts a new epoch with no flag left over from the old one |
| `Delivery.StepConserves` | src/client/mod.rs:327-462 | after a step a store retains a packet if and only if it did before and the packet had no reason to leave, or it just arrived |
| `Delivery.PushVolatileHolds` | src/retention/memory.rs:102-134 | a push takes away only what is expired or among the oldest of a full queue |
| `Delivery.PushStoredHolds` | src/retention/sqlite/statements.rs:34-66 | a store takes away only what is expired, among the oldest of a full table, or deleted with a replaced mapping |
| `Delivery.FlagStepConserves` | src/retention/memory.rs:136-170 | flag updates and resets keep every packet, and an acknowledgement removes its own packet alone |
| `Delivery.PacketsAreConserved` | src/client/mod.rs:327-462 | over whole runs a retained packet is still there, once and in one store, or left by acknowledgement, expiry, eviction, mapping replacement or interface deletion |
| `Delivery.StepCutsIff` | src/connection/resend.rs:220-240 | a step cuts an attempt of the current session off if and only if it is an abort with an attempt in hand that was not accepted |
| `Delivery.CutRunsIff` | src/connection/resend.rs:220-240 | a run is never in a state with an attempt cut off if and only if none of its steps is such an abort |
| `Delivery.OnlyCancelCuts` | src/connection/resend.rs:220-240 | without such an abort every flag is backed by an attempt that is open, accepted or being taken back |
| `Delivery.CancelStrands` | src/connection/resend.rs:220-240 | an abort leaves a flagged packet that was in hand with nobody at work on it if and only if no client has it in hand |
| `Delivery.StrandedUntilReset` | src/connection/resend.rs:259-281 | a packet left so is not resent by any run without a reset of its store |
| `Delivery.ResetFreesStranded` | src/connection/resend.rs:387-405 | the next reset of its store makes it unsent again, if and only if it is still retained |
| `Delivery.CutPacketStaysFlagged` | src/connection/resend.rs:220-240 | a complete run that leaves a live packet stranded on an idle, connected device |
| `Device.Device.Resend` | src/connection/resend.rs:104-162 | the resend loop terminates, ends connected in any case, sends only what waits, and on an error-free exit nothing is unsent or changed and all that was has been handed over or has expired |
| `Device.Device.ResendRound` | src/connection/resend.rs:126-157 | each continuing round strictly shortens what is left, a round that ends the loop leaves nothing, and no round forgets anything |
| `Device.Device.Reconnected` | src/connection/resend.rs:387-405 | without a session everything retained, flagged or not, and every device property is handed over again |
| `Device.Device.ResendVolatilePublishes` | src/connection/resend.rs:242-284 | calls for exactly the first unsent live packets in order, up to the first failure; what was taken is flagged or acknowledged, the rest is as before |
| `Device.Device.ResendVolatileBatch` | src/connection/resend.rs:259-281 | the loop over the packets loaded, against the same specification |
| `Device.Device.ResendVolatile` | src/connection/resend.rs:259-281 | one packet is flagged, sent, and on an error restored to exactly the state before |
| `Device.Device.ResendStoredPublishes` | src/connection/resend.rs:286-329 | the same for the table in key order, with each packet as its mapping describes it, and nothing when there is no table |
| `Device.Device.ResendStoredBatch` | src/connection/resend.rs:309-325 | the loop over the rows loaded |
| `Device.Device.ResendStored` | src/connection/resend.rs:309-325 | one row flagged, sent and restored on an error |
| `Device.Device.SendDeviceProperties` | src/connection/resend.rs:167-216 | one call per changed device property of a snapshot; each one sent is completed or dropped, and no other changes |
| `Device.Device.PublishesRound` | src/connection/resend.rs:127-148 | the two packet stores of a round, with the error exits |
| `Device.Transport.Send` | src/client/mod.rs:641-652 | the transport may answer anything, and every call is recorded |
| `Device.FlagFirstUnsent` | src/connection/resend.rs:259-281 | handing over the first unsent packet leaves exactly the others unsent, and unflagging restores the store |
| `Device.HandOverUnsent` | src/connection/resend.rs:259-281 | handing over a prefix of the unsent packets leaves exactly the remaining ones unsent |
| `Device.ResentProgress` | src/connection/resend.rs:129-131 | a full batch shortens what is unsent, a batch that is not full leaves nothing, and nothing live is dropped |
| `Device.PropsProgress` | src/connection/resend.rs:149-156 | the same progress for changed properties |
| `Device.ResentWaits` | src/connection/resend.rs:252-259 | every call for a packet is for one that was unsent, and no packet begins to wait meanwhile |
| `Device.PropsWait` | src/connection/resend.rs:175-189 | every call for a property is for one that was changed, with the value stored |
| `Device.SettledProps` | src/connection/resend.rs:190-213 | settling a snapshot takes effect on each of its properties and on no other |
| `Client.DeviceClient.Send` | src/client/mod.rs:327-366 | the store, the calls and the answer for every connection status and every retention, errors included; one id is drawn, and none for `Discard` |
| `Client.DeviceClient.OfflineSend` | src/client/mod.rs:368-404 | a packet is kept unsent in the store its retention asks for, and dropped only for `Discard` |
| `Client.DeviceClient.SendStored` | src/client/mod.rs:406-438 | a stored send that fails leaves the table as an offline send would, and falls back to the queue without a table |
| `Client.DeviceClient.SendVolatile` | src/client/mod.rs:440-462 | a volatile send that fails leaves the queue as an offline send would |
| `Client.DeviceClient.StorePublish` | src/retention/sqlite/mod.rs:223-242 | the new table, or the error that kept the row out of it |
| `Client.DeviceClient.NextId` | src/retention/mod.rs:413-423 | the id is a reading of the clock in milliseconds with the counter, which is bumped once |
| `Client.DeviceClient.PushVolatile` | src/retention/memory.rs:55-67 | the queue after a push, with its two clock readings |
| `Client.DeviceClient.SendProperty` | src/client/property.rs:41-117 | the property is stored first, sent only when connected and only if the stored value differs, completed only if it was sent, and left changed otherwise |
| `Client.DeviceClient.SendUnset` | src/client/property.rs:169-216 | the property is unset first, and dropped only once the unset was sent |
| `Client.DeviceClient.TryLoadProp` | src/client/property.rs:133-166 | a stored property of another major or type is deleted and not found |
| `Client.QueuedAfterSend` | src/client/mod.rs:440-462 | after a send the packet is waiting, flagged or gone as the transport answered, and others left only by eviction |
| `Client.StoredAfterSend` | src/client/mod.rs:406-438 | the same for the table, where rows also leave with a replaced mapping |
| `Client.SilentSetIff` | src/client/property.rs:60-63 | a connected set that is answered with success leaves its property to be sent if and only if the value was stored and not yet sent |
| `Client.OfflineUnsetIsSentIff` | src/client/property.rs:169-216 | an unset answered while offline is handed over by the next error-free resend if and only if the property was waiting to be sent |
| `Refinement.VolatileSendIsRun` | src/client/mod.rs:440-462 | a volatile send, offline, answered, refused or lost, is a run of the protocol with the same queue at its end |
| `Refinement.StoredSendIsRun` | src/client/mod.rs:406-438 | the same for the table |
| `Refinement.ResendIsRun` | src/connection/resend.rs:259-281 | handing over one packet of a batch is a run of the task, and leaves it at the next packet or on its way out |
| `Refinement.BatchIsRun` | src/connection/resend.rs:259-284 | a batch, up to its first failure, is a run of the task |
| `Refinement.PublishesAreRun` | src/connection/resend.rs:242-329 | loading and resending the packets of either store is a run of the task |
| `Refinement.RoundIsRun` | src/connection/resend.rs:126-148 | so are both stores of a round, after which the task can end or go on |
| `Refinement.RetainedIsDelivered` | src/client/mod.rs:368-462 | a packet in either store, whatever steps follow, has left for a reason, is flagged on the strength of an attempt, is handed over by the next error-free resend, or expires |
| `Refinement.AnsweredRun` | src/client/mod.rs:454-461 | each answer of the transport continues any run of a waiting client, and settles the store |
| `PropertySync.StepKeepsInv` | src/client/property.rs:73-114 | if one handle at a time works on a property, each step keeps store, transport and the snapshot of the task in agreement on it |
| `PropertySync.UpdateKeepsInv` | src/connection/resend.rs:190-213 | the compare-and-set makes a stale snapshot harmless |
| `PropertySync.LoadKeepsInv` | src/connection/resend.rs:175-182 | the snapshot the task takes contradicts no completed property |
| `PropertySync.SafeRunKeepsInv` | src/client/property.rs:41-216 | in every run without handles, or with one at a time on the property and no spawn while connected, it is the last value the transport accepted once it is completed |
| `PropertySync.RaceRun` | src/client/property.rs:73-99 | the run of two handles that meet on a property and end out of step, spawns guarded or not |
| `PropertySync.StaleRun` | src/connection/resend.rs:149-160 | the run of one handle, others idle, that ends out of step after a spawn while connected |
| `PropertySync.SyncedAtIff` | src/client/property.rs:41-216 | store and transport agree on a property in all runs if and only if there is no handle, or no spawn while connected and one handle at most, or a lock, for the property |
| `PropertySync.SyncedIffGuardedHandle` | src/client/property.rs:41-216 | without locks they agree on all properties in all runs if and only if there is no handle, or one and no spawn while connected |
| `PropertySync.LockedRunsIff` | src/client/property.rs:41-216 | the runs with a lock on a property are exactly the runs in which no two handles ever work on it at the same time |
| `PropertySync.SetRun` | src/client/property.rs:60-84 | a set without interference stores its value and calls the transport if it finds the device connected |
| `PropertySync.UnsetRun` | src/client/property.rs:169-216 | the same for an unset |
| `PropertySync.ReplyRun` | src/client/property.rs:87-97 | the reply settles the property on success alone; a lost message was accepted all the same |
| `PropertyRefinement.SetIsRun` | src/client/property.rs:41-117 | a set, rejected, silent, kept, sent, refused or lost, is a run of its client with the same store and the same messages accepted |
| `PropertyRefinement.UnsetIsRun` | src/client/property.rs:169-216 | the same for an unset |
| `PropertyRefinement.PropsAreRun` | src/connection/resend.rs:167-216 | the properties of a round, up to the first failure, are a run of the task, after which it can go on or end |
| `PropertyRefinement.BatchReaches` | src/connection/resend.rs:175-213 | the loop over the snapshot, call by call |
| `PropertyRefinement.PropertyIsDelivered` | src/client/property.rs:41-216 | at any moment of such a run a property with a value is the last one accepted, or is handed over with its stored value by the next error-free resend; no resend sends another value for it, or a completed property |
| `PropertyStore.MemoryStore.UpdateState` | src/store/memory.rs:91-108 | compare and set of the state, on the expected value only |
| `PropertyStore.MemoryStore.LoadProp` | src/store/memory.rs:110-140 | a property of another major is deleted |
| `PropertyStore.MemoryStore.DeleteProp` | src/store/memory.rs:154-162 | one property goes |
| `PropertyStore.MemoryStore.DeleteExpectedProp` | src/store/memory.rs:164-182 | one property goes if it has the expected value |
| `PropertyStore.MemoryStore.DevicePropsWithUnset` | src/store/memory.rs:258-283 | distinct device properties in the state asked for, as many as limit and offset allow |
| `PropertyStore.ConditionalUpdatesSettle` | src/store/memory.rs:91-108 | the two conditional updates refine the settle step of the protocol |
| `PropertyStore.WritesRefine` | src/store/memory.rs:66-89 | storing and unsetting a property refine the writes of the protocol, and what was stored waits to be sent |
| `PropertyStore.ResetRefines` | src/store/memory.rs:285-300 | resetting device properties refines the reset of the protocol and leaves none completed; resetting those of the server changes no device property |
| `PropertyStore.DeletionsRefine` | src/store/memory.rs:249-256 | deleting one property, or those of an interface, removes exactly these from the protocol |
| `Introspection.Introspector.AddInterface` | src/client/introspection.rs:106-134 | a rejection changes nothing; an addition cleans up after a major change and installs the version |
| `Introspection.Introspector.ExtendInterfaces` | src/client/introspection.rs:136-176 | the whole batch is installed or nothing changes |
| `Introspection.Introspector.RemoveInterface` | src/client/introspection.rs:209-227 | the interface and what its kind retains go together |
| `Introspection.Introspector.RemoveInterfaces` | src/client/introspection.rs:229-272 | the same for the installed ones among many names |
| `Introspection.Introspector.CleanupInterface` | src/client/introspection.rs:47-67 | the kind of the interface passed in decides which stores are cleaned |
| `Introspection.Introspector.CleanupRetention` | src/client/introspection.rs:70-84 | queue and table lose exactly the packets of the interface, and what expired |
| `Introspection.Introspector.CleanupMany` | src/client/introspection.rs:159-165 | each interface is cleaned up once, in some order |
| `Introspection.Introspector.CleanupIntrospection` | src/retention/mod.rs:284-312 | an arbitrary table loses everything of an interface with an outdated mapping, and nothing else |
| `Introspection.Introspector.InitStore` | src/connection/resend.rs:44-81 | the stores at start-up, with a table or without: cleaned, within the new capacity, unexpired and all unsent; every device property changed |
| `Introspection.Introspector.InitTable` | src/connection/resend.rs:51-72 | the part for the publish table |
| `Introspection.AddFitsIff` | src/client/introspection.rs:106-134 | adding a version keeps every queued packet and every row sendable if and only if it is not a version of properties over retained packets |
| `Introspection.ExtendFitsIff` | src/client/introspection.rs:136-176 | the same for a batch: no version of properties may come over a row, or over a queued packet that the cleanups of the batch do not find expired |
| `Introspection.RemoveFits` | src/client/introspection.rs:209-272 | removing interfaces leaves no queued packet and no row behind for them |
| `Introspection.CleanedAllMeans` | src/client/introspection.rs:47-84 | exactly which queued packets, rows and mappings many cleanups leave, independent of their order |
| `Introspection.StartUpFits` | src/retention/mod.rs:284-312 | start-up leaves exactly the rows of the interfaces without an outdated mapping, and each of them reads an installed major |
| `IntrospectionRuns.StepFitsIff` | src/client/introspection.rs:106-272 | one send, flag, acknowledgement, expiry, reset or change keeps the invariant if and only if it keeps kinds |
| `IntrospectionRuns.SendFits` | src/client/individual.rs:46-58 | a send of a packet validated against the installed interfaces keeps the invariant in both stores, a replaced mapping included |
| `IntrospectionRuns.FitsOverRunsIff` | src/client/introspection.rs:106-272 | in every run all queued packets and rows belong to installed datastreams of their major if and only if no interface with retained packets becomes properties; the foreign key holds throughout |
| `IntrospectionRuns.KindChangeRun` | src/client/introspection.rs:47-67 | the run of an offline send and a version of properties that leaves a packet nobody can send |
| `StartUp.RowsLeftMean` | src/connection/resend.rs:44-81 | the rows start-up leaves are in key order, within the capacity, unsent, unexpired, not outdated, and were all there before |
| `StartUp.StartedFitsIff` | src/connection/resend.rs:44-81 | after start-up every row reads an installed major, and all can be sent if and only if none is for an interface that has become properties |
| `StartUp.StartedIsInitial` | src/connection/resend.rs:44-81 | whatever the database held, start-up leaves the initial state of both protocols |
| `InstalledInterfaces.Interfaces.Add` | src/interfaces.rs:52-55 | the key is the name of the interface |
| `InstalledInterfaces.Interfaces.Validate` | src/interfaces.rs:60-95 | present, rejected or to be added, with the major change |
| `InstalledInterfaces.Interfaces.ValidateMany` | src/interfaces.rs:248-264 | one rejection rejects the batch |
| `InstalledInterfaces.Interfaces.Extend` | src/interfaces.rs:267-270 | each name of the batch has its new version, every other name what it had, in whatever order they are inserted |
| `InstalledInterfaces.Interfaces.Remove` | src/interfaces.rs:97-99 | one name goes, and its interface is returned |
| `InstalledInterfaces.Interfaces.RemoveMany` | src/interfaces.rs:102-110 | exactly the names given go |
| `InstalledInterfaces.JudgeManyMeans` | src/interfaces.rs:248-264 | for distinct names a batch is accepted if and only if each interface is, each judged against what was installed before |
| `InstalledInterfaces.AddEachMeans` | src/interfaces.rs:52-95 | the same for adding one at a time |
| `InstalledInterfaces.BatchIsOneByOne` | src/interfaces.rs:248-270 | for distinct names a batch succeeds and ends as adding one at a time does, in any order |
| `InstalledInterfaces.OneByOneIffDistinct` | src/interfaces.rs:248-270 | all batches with given names behave as one-at-a-time adding, whatever is installed, if and only if no name repeats |
| `InstalledInterfaces.MajorsNeverDecrease` | src/interfaces.rs:60-95 | over any run of changes the major of an interface that is not removed never goes down |
| `InstalledInterfaces.ListedOnceIff` | src/interfaces.rs:273-281 | the introspection with an added interface lists no name twice if and only if the name was not installed |
| `VolatileQueue.State.Push` | src/retention/memory.rs:102-134 | the queue after a push, for every capacity and every retention |
| `VolatileQueue.State.RemoveExpired` | src/retention/memory.rs:172-176 | exactly the expired items go |
| `VolatileQueue.State.GetUnsent` | src/retention/memory.rs:142-157 | the first live unsent items in order, appended to the buffer |
| `VolatileQueue.State.ResetSent` | src/retention/memory.rs:136-140 | every flag is cleared |
| `VolatileQueue.State.MarkSent` | src/retention/memory.rs:159-164 | one flag is set, and the previous one returned |
| `VolatileQueue.State.MarkReceived` | src/retention/memory.rs:166-170 | one item goes, and its value is returned |
| `VolatileQueue.State.DeleteInterface` | src/retention/memory.rs:182-200 | the items of the interface and the expired ones go, and are counted |
| `VolatileQueue.PushesKeepTheLatest` | src/retention/memory.rs:102-134 | any run of pushes without expiry leaves exactly the last ones, as many as the capacity, in order |
| `VolatileQueue.PushesKeepOrder` | src/retention/memory.rs:102-134 | any run of pushes stays within capacity and keeps the order of arrival |
| `Retained.MakeRoomMinimal` | src/retention/sqlite/mod.rs:350-382 | eviction removes nothing when there is room, else all expired ones and the fewest oldest |
| `Retained.MakeRoomEvicts` | src/retention/sqlite/mod.rs:350-382 | an evicted entry was expired, or older than all that stayed |
| `Retained.SetSentMembers` | src/retention/memory.rs:159-164 | setting a flag changes one entry and keeps ids distinct |
| `Retained.RemoveMembers` | src/retention/memory.rs:166-170 | removing takes one entry and keeps ids distinct |
| `Retained.ResetSentMembers` | src/retention/memory.rs:136-140 | resetting keeps every packet, unflagged |
| `StoredTable.WriteConnection.FreeRetentionItems` | src/retention/sqlite/mod.rs:350-382 | the rows left and the true number removed, saturating arithmetic and the `i64` limit included |
| `StoredTable.WriteConnection.SetMaxRetentionItems` | src/retention/sqlite/mod.rs:384-397 | the new capacity is applied at once |
| `StoredTable.WriteConnection.Store` | src/retention/sqlite/statements.rs:34-66 | capacity kept, row inserted at its key, mapping inserted or replaced; a known id rolls the row back but not the eviction |
| `StoredTable.WriteConnection.InsertRow` | src/retention/sqlite/statements.rs:93-122 | the row is at its place in key order, unless its id is there already |
| `StoredTable.WriteConnection.RemoveOldest` | src/retention/sqlite/statements.rs:137-151 | the rows with the smallest ids go, at most an `i64` of them |
| `StoredTable.WriteConnection.DeleteExpired` | src/retention/sqlite/statements.rs:236-251 | exactly the expired rows go |
| `StoredTable.WriteConnection.UpdateSentFlag` | src/retention/sqlite/statements.rs:153-173 | one flag is set |
| `StoredTable.WriteConnection.MarkReceived` | src/retention/sqlite/statements.rs:175-195 | one row goes |
| `StoredTable.WriteConnection.DeleteInterface` | src/retention/sqlite/statements.rs:197-234 | the rows and mappings of the interface go, and no other |
| `StoredTable.WriteConnection.ResetAllPublishes` | src/retention/sqlite/mod.rs:304-318 | expired rows go, and no flag is left set |
| `StoredTable.WriteConnection.UnsentPublishes` | src/retention/sqlite/mod.rs:274-302 | the first live unsent rows in key order, joined with their mappings |
| `StoredTable.WriteConnection.AllInterfaces` | src/retention/sqlite/statements.rs:265-282 | the interfaces and majors that have a mapping |
| `StoredTable.EvictsOldestFirst` | src/retention/sqlite/statements.rs:137-151 | an evicted live row is older than every row kept, and no more go than needed |
| `StoredTable.CapacityOverRuns` | src/retention/sqlite/mod.rs:350-397 | over any run, with the capacity changing at any time, the rows stay within the capacity in force |
| `StoredTable.InsertedSorted` | src/retention/sqlite/statements.rs:93-122 | inserting keeps key order and adds one row |
| `RetentionIds.Context.Next` | src/retention/mod.rs:413-423 | the id of the call, and the counter after it, with the wrap-around of a `u32` |
| `RetentionIds.CollideIff` | src/retention/mod.rs:413-423 | two ids are equal if and only if they share a millisecond and are a multiple of 2^32 calls apart |
| `RetentionIds.IncreasingIff` | src/retention/mod.rs:413-423 | on a nondecreasing clock the next id is larger, except at a wrap inside one millisecond |
| `RetentionIds.RowKeyOrder` | src/retention/mod.rs:380-382 | key columns compared as blobs order rows as `Id` does, and are read back unchanged |
| `RetentionIds.BytesOrder` | src/retention/sqlite/mod.rs:189-220 | big-endian blobs compare as the numbers they encode |
| `RetentionIds.BytesCanonical` | src/retention/sqlite/mod.rs:43-54 | every blob of the right width is the encoding of what it decodes to |
| `RetentionIds.ExpiryIsTimely` | src/retention/sqlite/mod.rs:189-220 | a row never expires before its deadline, and less than a second late |
| `ConnectionPool.BoundedIff` | src/store/sqlite/pool.rs:109-152 | queued and used read connections stay within the limit in all runs if and only if no caller is dropped |
| `ConnectionPool.RunKeeps` | src/store/sqlite/pool.rs:109-152 | permits and connections add up in every run without dropped callers, failures and panics included |
| `ConnectionPool.NeverShared` | src/store/sqlite/pool.rs:109-152 | no connection is ever in two places, dropped callers included |
| `ConnectionPool.OneWriterIff` | src/store/sqlite/pool.rs:65-103 | there is at most one write connection in all runs if and only if no caller is dropped |
| `ConnectionPool.CapacityKeptIff` | src/store/sqlite/connection.rs:189-208 | the configured capacity stays in force in all runs if and only if no write connection is ever lost |
| `Aggregate.AstarteObject.Insert` | src/aggregate.rs:69-78 | map update, with the previous value, and distinct keys kept |
| `Aggregate.AstarteObject.Get` | src/aggregate.rs:81-85 | map lookup |
| `Aggregate.AstarteObject.Remove` | src/aggregate.rs:88-94 | map removal through `swap_remove`, with distinct keys kept |
| `Aggregate.MapSize` | src/aggregate.rs:117-123 | a collected object has at least as many fields as keys, and as many if and only if no key repeats |
| `Aggregate.EqIsMapEquality` | src/aggregate.rs:126-135 | the one-directional comparison is equality of maps for distinct keys on the left |
| `Aggregate.EqIsEquivalence` | src/aggregate.rs:126-135 | equality of objects with distinct keys is reflexive, symmetric and transitive |
| `Aggregate.SymmetricIff` | src/aggregate.rs:126-135 | an object compares symmetrically with every other if and only if its keys are distinct or it differs from itself |
| `ObjectValidation.Iter.Next` | src/validate/object.rs:58-75 | the iterator yields the next item of the outer join, and gets shorter |
| `ObjectValidation.YieldsEachOnce` | src/validate/object.rs:58-75 | each datum and each mapping comes out exactly once and in order |
| `ObjectValidation.YieldsInOrder` | src/validate/object.rs:58-75 | on sorted input the names come out in order |
| `ObjectValidation.CheckMappings` | src/validate/mod.rs:154-201 | the result is the problem of the least name that has one |
| `ObjectValidation.FirstErrorIsFirstProblem` | src/validate/mod.rs:154-201 | the first error of the join is the problem of the least bad name, by kind |
| `ObjectValidation.NoProblemIff` | src/validate/mod.rs:154-201 | no name has a problem if and only if keys are distinct, each has a mapping of its type and nothing required is missing |
| `ObjectValidation.ConformsInAnyOrder` | src/validate/mod.rs:135-137 | acceptance does not depend on the order of the fields |
| `ObjectValidation.SortByKey` | src/validate/mod.rs:135-137 | a sorted permutation |
| `ObjectValidation.Validate` | src/validate/mod.rs:107-146 | an object is accepted if and only if it conforms, unsorted input included; otherwise which error |
| `Types.DecodeIsSound` | src/types/de.rs:130-184 | what decodes has the type asked for, and forbidden doubles are refused |
| `Types.DecodesIff` | src/types/de.rs:130-184 | decoding gives a value if and only if the BSON value stands for it under the type asked for: arrays item by item, integers widened, dates clamped |
| `Types.RoundTrip` | src/types/de.rs:28-56 | decoding an encoded value gives it back, timestamps to the millisecond |
| `Types.AcceptedDataDecodesIff` | src/types/mod.rs:203-227 | accepted data decodes under its mapping if and only if it is not an integer for a double |
| `Types.ArrayDecodesItemwise` | src/types/mod.rs:229-273 | an array decodes if and only if each item does, and then item by item, widening included |
| `PurgeProperties.EncodeSetProperties` | src/properties.rs:241-279 | the exact message, or an error if and only if the length is no `u32` |
| `PurgeProperties.EncodeProp` | src/properties.rs:281-302 | the running size, and the overflow error |
| `PurgeProperties.EncodeEntry` | src/properties.rs:264-269 | a separator and an entry, counted together |
| `PurgeProperties.RoundTripIff` | src/properties.rs:199-234 | a list survives the round trip if and only if no entry has a separator and it is not one empty entry; the header is the length |
| `PurgeProperties.ExtractKeepsText` | src/properties.rs:199-234 | joining what was extracted gives the text of any accepted message |
| `Backoff.ExponentialIter.Next` | src/retry.rs:47-71 | delay and state after a call, with the reset gap and the wrapping shift |
| `Backoff.ClosedFormIff` | src/retry.rs:47-71 | the delays are 0, 1, 2, 4, ... seconds cut at the maximum, in all runs, if and only if the maximum is at most 2^63 seconds |
| `Backoff.Wraps` | src/retry.rs:63-63 | beyond that the delay falls back to one second |
| `Backoff.DelaysGrowIff` | src/retry.rs:47-71 | no delay exceeds the maximum, and delays never shrink between reset gaps, in all runs, if and only if the maximum is at most 2^63 seconds |
| `Backoff.NextRandom` | src/retry.rs:118-134 | the delay with jitter, with every overflow of the source |
| `Backoff.JitterBounds` | src/retry.rs:118-134 | with a jitter of 1 to 100 the delay is within that many hundredths of it |
| `Backoff.JitterFitsIff` | src/retry.rs:118-134 | that holds if and only if the delay fits an `i64` of milliseconds |
| `Backoff.JitterClampIff` | src/retry.rs:110-116 | that holds for all such delays if and only if the jitter is at most 100 |

## Left out

- Network, TLS, pairing, HTTP, gRPC and MQTT: the transport is an oracle that takes, refuses or loses each message.
- The event loop beyond its status changes: received events, the wait between attempts and the attempts to reconnect.
- SQL and SQLite: the table follows the Rust callers and the statements; failures of the database are not modelled.
- Replacing a mapping: whether the foreign key deletes the rows of the path is left open by the parameter `cascade`.
- Delivery.PushStoredHolds: counts on `cascade` for the rows a replaced mapping may take, because what the database does there is left open.
- Refinement.StoredSendIsRun: covers packets whose expiry fits the table; one that does not is answered with an error before any step on the table.
- Delivery.SentFlagsAreFounded: assumes ids that are not in use, which `RetentionIds.CollideIff` shows for fewer than 2^32 calls, and flag updates that succeed.
- A flag update whose blocking closure outlives an aborted task is not modelled; the task machine also allows its loads in any order.
- Refinement.RoundIsRun: leaves out the properties of the round, which are a run of the other protocol (`PropertyRefinement.PropsAreRun`).
- `Delivery`, `PropertySync`, `IntrospectionRuns` and `ConnectionPool` are step machines over values; the order in which locks are granted and liveness under endless producers are not modelled.
- Client.DeviceClient.SendVolatile: describes the new queue only for an id that is not in it, for the same reason.
- Client.DeviceClient.Send: serialization errors are left out, and packets carry their payload.
- Device.Device.Resend: has no concurrent producers; with them the loop need not end.
- The `astarte_interfaces` crate: `validate_with` is any predicate that rejects lower majors, a field is compared by name, and whether a path is an object path is a parameter.
- InstalledInterfaces.MajorsNeverDecrease: excludes the removal of the interface, after which any version can be added.
- zlib is an inverse pair, strings are UTF-8 byte sequences, and the check of UTF-8 is part of the decompressor.
- PurgeProperties.ExtractKeepsText: says nothing of the header, because a release build only logs a header that does not match.
- BSON bytes are left out; doubles are compared by their bits, so that 0.0 and -0.0 differ in the model and not in the code.
- Dates follow the range of `chrono`, to which BSON dates are clamped.
- Backoff.NextRandom: requires a jitter above 0, since the range of the source is empty otherwise.
- StoredTable.WriteConnection.Store: requires fewer rows than an `i64` can count.
- ObjectValidation.CheckMappings: requires sorted input, as the debug assertions of the source do.
- `Properties` other than device properties, the session store, statistics, logging and error texts.
