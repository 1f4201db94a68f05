# Cloudia verification

A Dafny model of the state machines inside Cloudia, a local emulator of AWS and GCP services, with
proofs about them. Each component follows its Go source: objects that change in place are classes
whose methods are proved against functions on values, concurrent code is a step system whose
schedules are all interleavings, and the theorems are about every input, run or schedule.

| files | component |
|---|---|
| `StoreKeys.dfy`, `MemoryStore.dfy` | the string-keyed resource store |
| `Locks.dfy`, `LockSchedules.dfy` | the keyed lock manager, and all interleavings of its callers |
| `Reconciler.dfy`, `ReconcilerRounds.dfy` | one repair round over store and Docker, and repeated rounds |
| `PubSub.dfy`, `PubSubRuns.dfy` | the Pub/Sub backend, and its runs against a log per subscription |
| `Ports.dfy`, `LambdaPool.dfy`, `LambdaStartup.dfy`, `LambdaPorts.dfy`, `LambdaPortLoss.dfy` | the port allocator, the Lambda pool over it, concurrent starts, and both together |
| `Idempotency.dfy` | the idempotency middleware, interleaved, against a store that never forgets |
| `FileStore.dfy` | the file-backed store with failures, crashes and concurrent writers |
| `RunInstances.dfy`, `InstanceStates.dfy` | EC2 launches, and starting, stopping and terminating instances |
| `References.dfy`, `ReferenceRuns.dfy` | references between EC2, SG, VPC and IAM resources |
| `SigV4.dfy`, `Signing.dfy`, `Authorization.dfy` | Signature Version 4: encoding, signing and parsing |
| `Text.dfy`, `Strings.dfy`, `Wrappers.dfy` | splitting, trimming, decimal numbers, optional values |

A class method carries the operation's whole effect in its `ensures`; what the operation is for is
proved beside it about the function that the `ensures` names. Main theorems:

- locks: `EveryScheduleIsSafe`, `WakeupIsNeverLost`, `MutualExclusion`
- reconciler: `RoundMeaning`, `RoundLowersUnknownExactlyWhen`, `RoundsSettle`, `RoundsAlwaysSettle`,
  `SurvivesExactlyWhen`, `FailedRemovalIsNeverRetriedExactlyWhen`
- Pub/Sub: `PulledThenQueuedIsTheLog`, `AcknowledgingPulledMessagesChangesNothing`
- ports and Lambda: `ChoiceIsCyclicFirstFit`, `PortsConservedExactlyWhen`, `DoubleStartPossibleExactlyWhen`,
  `PortIsLostExactlyWhenOverwritten`
- idempotency: `CollectorIsInvisible`, `DuplicateRunsExactlyWhenUnanswered`, `HandlerRunsOncePerToken`
- files: `EveryCrashRecoversPastMemory`, `UpdateCanBeLostExactlyWhen`, `ChangeCanBeLostExactlyWhen`
- resources: `BelowMinimumIsUndoneExactlyWhen`, `RequestsKeepAgreement`, `ReferencesNeverDangle`,
  `AttachingWorksExactlyWhen`, `StoreRefinesPairMap`
- signatures: `QueriesEqualExactlyWhen`, `CanonicalRequestsEqualExactlyWhen`, `RoundTripsExactlyWhenClean`,
  `DetectionAgreesExactlyWhen`

## Where the code falls short of what it is for

The model keeps the code as it is; each point has lemmas with the exact condition and a concrete case.

- Unlock by a thread that does not hold the key gives it to two threads (`UnlockKeepsExclusionExactlyWhen`,
  `ForeignUnlockBreaksExclusion`); the comment at `internal/state/lock.go:61` says that unlocking
  without holding the lock does nothing, which is so only when nobody holds it.
- A reconciler round can make no progress when an orphan's record overwrites that of a live container
  (`RoundLowersUnknownExactlyWhen`), and the live container is then removed as well unless others protect
  its record (`SurvivesExactlyWhen`, `OverwrittenRecordCostsContainer`). An orphan whose key is locked is
  removed without a record (`BatchIsRecordedExactlyWhen`, `LockedOrphanLeavesNoTrace`). When orphans
  ask for different keys and no such key holds the record of a listed container, a removal that fails while
  the key is free is never tried again, because the container then counts as known
  (`FailedRemovalIsNeverRetriedExactlyWhen`, `OneFailureKeepsContainer`).
- A pull removes messages for good, so an acknowledgement after it is without effect and nothing is
  redelivered (`AcknowledgingPulledMessagesChangesNothing`).
- A preferred port more than one above the range can hand out a port outside it (`ChoiceFailsOrEscapesExactlyWhen`).
- Lambda loses port 0 when it is in the range (`PortsConservedExactlyWhen`), and a failed start with other
  invocations waiting allows two starts of one function (`DoubleStartPossibleExactlyWhen`), the second of
  which costs a port (`PortIsLostExactlyWhenOverwritten`, `DoubleStartLosesPort`).
- A file-backed Put that fails has already changed the memory, so a launch can leave the record of a
  removed container, below the minimum as well as with a 200 (`BelowMinimumIsUndoneExactlyWhen`,
  `BelowMinimumLeavesRecord`, `LaunchedWorld`, `LaunchLeavesRecord`). The limit of ten instances does not
  hold for the minimum (`TenIsExceededExactlyWhen`, `ElevenInstances`).
- A writer whose copy is out of date can put it over a newer file and return nil
  (`UpdateCanBeLostExactlyWhen`, `ChangeCanBeLostExactlyWhen`, `LateRenameLosesUpdate`).
- Concurrent requests with one token all reach the handler until the first of them is answered
  (`DuplicateRunsExactlyWhenUnanswered`, `TwoRequestsBothRun`).
- A role and a policy joined by a colon can give the ID of another attachment: attaching then reports
  success and stores nothing, and detaching takes the policy from the other role
  (`AttachingWorksExactlyWhen`, `DetachingTakesExactly`, `CollidingAttachments`).
- The service that the idempotency cache detects can differ from the one that the verifier accepts
  (`DetectionAgreesExactlyWhen`, `TabHidesTheService`, `TwoCredentialsDiffer`).
- Store keys of kinds with different numbers of colons can collide (`KeysCollideExactlyWhen`, `KeysCanCollide`).
- Bodies of requests with a token are hashed and forwarded up to 1 MiB only (`BodyArrivesWholeExactlyWhen`,
  `BodiesAreNotToldApartExactlyWhen`, `LastByteIsLost`).

## Model

| member | source | states |
|---|---|---|
| StoreKeys.KeysCollideExactlyWhen | internal/state/memory.go:29-31 | two (kind, id) pairs share a store key iff they are equal or one kind swallows a colon and a piece of the other's id |
| StoreKeys.KeyDeterminesPair | internal/state/memory.go:29-31 | with equally many colons in both kinds (two, for every service kind) the key determines kind and id, whatever colons the ids contain |
| StoreKeys.ServiceKindHasTwoColons | internal/state/memory.go:29-31 | every kind of the form provider:service:name is in the collision-free class |
| StoreKeys.KeysCanCollide | internal/state/memory.go:29-31 | a concrete pair of different (kind, id) with the same key |
| MemoryStore.Store.Get | internal/state/memory.go:34-45 | the resource under the key, or nothing, and no change |
| MemoryStore.Store.List | internal/state/memory.go:49-65 | every stored resource that passes kind and filter exactly once and nothing else, for any iteration order of the map |
| MemoryStore.Store.Put | internal/state/memory.go:116-123 | the whole new map: the resource under its own key, all else as before |
| MemoryStore.Store.Delete | internal/state/memory.go:126-132 | the whole new map: the key gone, all else as before; the map stays keyed by its resources |
| MemoryStore.FieldConditions | internal/state/memory.go:70-96 | which fields and tags the conditions of a filter compare |
| MemoryStore.FilterMeetsAll | internal/state/memory.go:68-113 | a filter selects what meets all its conditions |
| MemoryStore.ValuesPrintAs | internal/state/memory.go:106 | how texts, numbers and lists of a Spec print for a filter |
| MemoryStore.StoreRefinesPairMap | internal/state/memory.go:116-169 | any run of Put, Delete, Snapshot and Restore on service kinds is a run of a map keyed by (kind, id), on disk as well as in memory |
| MemoryStore.LookupAgrees | internal/state/memory.go:34-45 | in every such run a lookup finds exactly what the pair-keyed map holds |
| MemoryStore.ListingAgrees | internal/state/memory.go:49-65 | and a listing holds exactly the resources of the pair-keyed map that pass kind and filter, each once |
| MemoryStore.CollidingPutLosesResource | internal/state/memory.go:116-123 | outside the service kinds one Put destroys a resource of another kind |
| References.SpecCondition | internal/state/memory.go:92-110 | a spec: condition selects exactly the resources whose field prints as the value |
| Locks.LockManager.LockAttempt | internal/state/lock.go:39-48 | one turn of Lock: takes a free key with a new open channel, or captures the open channel now registered and changes nothing |
| Locks.LockManager.Unlock | internal/state/lock.go:62-74 | removes the key and closes its channel, which was open; nothing happens to a free key; the table stays wellformed |
| Locks.LockManager.TryLock | internal/state/lock.go:78-89 | succeeds iff the key is free, and then registers a new open channel; otherwise changes nothing |
| Locks.LockManager.CloseChannel | internal/state/lock.go:73 | demands an open channel, so a double close is ruled out at every call |
| LockSchedules.EveryScheduleIsSafe | internal/state/lock.go:29-89 | in every interleaving by any callers no channel is closed twice, every registered channel is open, and every waiter's captured channel is closed or is the one now registered for its key |
| LockSchedules.StepKeepsInv | internal/state/lock.go:29-89 | each atomic step keeps that invariant |
| LockSchedules.WakeEnabledExactlyAfterRelease | internal/state/lock.go:50-56 | a waiter is runnable iff its key was released since it captured the channel |
| LockSchedules.WakeupIsNeverLost | internal/state/lock.go:50-56 | a wakeup stays pending through any steps of the other threads |
| LockSchedules.UnlockWakesAllWaiters | internal/state/lock.go:62-74 | unlocking makes every waiter of that key runnable |
| LockSchedules.FreeKeyIsWithinReach | internal/state/lock.go:39-58 | a waiter whose key is free gets it with its own next two steps |
| LockSchedules.UnlockKeepsExclusionExactlyWhen | internal/state/lock.go:60-74 | Unlock keeps exclusion iff the caller holds the key or nobody does |
| LockSchedules.DisciplinedStepKeepsExclusion | internal/state/lock.go:29-89 | each step of callers that unlock only what they hold keeps: one holder per key, and in the map iff held |
| LockSchedules.MutualExclusion | internal/state/lock.go:29-89 | over every run of such callers at most one thread holds a key, and a key is in the map iff someone holds it |
| LockSchedules.ForeignUnlockBreaksExclusion | internal/state/lock.go:60-74 | a schedule in which an undisciplined Unlock gives one key to two threads |
| LockSchedules.LockReturnsWithTheKeyOrByTimeout | internal/state/lock.go:39-57 | a thread leaves Lock only with the key it wanted, which was free, or by the end of its context with nothing changed |
| LockSchedules.LockIsHeldUnlessTimedOut | internal/state/lock.go:39-57 | over every run, a thread that entered Lock, did not time out and is no longer in it held the key on the way |
| LockSchedules.EnterWaitsExactlyWhenTaken | internal/state/lock.go:39-52 | a turn of Lock takes a free key, and for a taken one waits on the channel registered for it |
| LockSchedules.TryLockTakesExactlyWhenFree | internal/state/lock.go:78-89 | TryLock gets a key exactly when it is free, and never waits |
| LockSchedules.UnlockFreesTheKey | internal/state/lock.go:62-74 | after Unlock the key is free, its channel and no other is newly closed, and other keys are as before |
| LockSchedules.HandOverWorks | internal/state/lock.go:29-89 | two threads and any key: the waiter holds it after the holder's Unlock, and the former holder does not |
| Reconciler.ReconcilerService.Reconcile | internal/state/reconciler.go:71-198 | the new store and containers are exactly those of one specified round, or unchanged when listing fails; locks are as before |
| Reconciler.ReconcilerService.TerminateVanished | internal/state/reconciler.go:91-117 | the terminate loop marks exactly the unlocked resources with a vanished container, in any listing order |
| Reconciler.ReconcilerService.CleanOrphans | internal/state/reconciler.go:128-195 | the bounded loop handles exactly the first ten unknown containers in list order |
| Reconciler.ReconcilerService.CleanOrphan | internal/state/reconciler.go:140-194 | one orphan: its record only if its key is free, its removal in any case |
| Reconciler.ReconcilerService.CollectKnown | internal/state/reconciler.go:120-125 | the set of all non-empty container IDs of the listed resources |
| Reconciler.BatchReached | internal/state/reconciler.go:129-138 | where the loop stops, what it has cleaned is the first ten unknown containers of the whole list |
| ReconcilerRounds.RoundMeaning | internal/state/reconciler.go:84-180 | every key after a round under any locks and failures: an orphan record of a batch container with that key, or the old resource, terminated iff it vanished and was unlocked |
| ReconcilerRounds.UndisturbedRound | internal/state/reconciler.go:71-198 | without locks and with fresh distinct orphan keys: exactly the vanished become terminated, the others are untouched, and the first min(10, u) unknown containers gain records |
| ReconcilerRounds.KnownContainersSurvive | internal/state/reconciler.go:127-194 | a container that the store mentions is never removed |
| ReconcilerRounds.RoundRemovesOnlyTheBatch | internal/state/reconciler.go:127-195 | a container goes iff it is in the batch of at most ten and its removal succeeds |
| ReconcilerRounds.LockedOrphanIsRemovedUnrecorded | internal/state/reconciler.go:151-193 | a locked orphan key loses the record but not the removal |
| ReconcilerRounds.RoundLowersUnknownExactlyWhen | internal/state/reconciler.go:127-195 | a calm round lowers the unknown containers by min(10, u) iff every known container keeps a record that the inserts do not overwrite, and never by more |
| ReconcilerRounds.SafeIsKept | internal/state/reconciler.go:71-198 | when keys of unknown containers are free of live records, they stay so, and so no record is lost in later rounds |
| ReconcilerRounds.SafeKeepsRecords | internal/state/reconciler.go:71-198 | that condition implies the exact one of the previous rows |
| ReconcilerRounds.RoundsRemoveTenEach | internal/state/reconciler.go:71-198 | after n calm rounds exactly the first min(10n, u) unknown containers are gone |
| ReconcilerRounds.RoundsSettle | internal/state/reconciler.go:71-198 | when no unknown container's key holds the record of a listed one, ceil(u/10) + 1 rounds leave nothing unknown and every vanished record terminated |
| ReconcilerRounds.SettledIsFinal | internal/state/reconciler.go:71-198 | from then on rounds change nothing but UpdatedAt |
| ReconcilerRounds.RoundsAlwaysSettle | internal/state/reconciler.go:71-198 | from any state, records overwritten or not, as many calm rounds as there are containers and one more leave nothing unknown and every vanished record terminated |
| ReconcilerRounds.RoundShortensList | internal/state/reconciler.go:127-195 | every calm round with an unknown container removes a container |
| ReconcilerRounds.OverwrittenRecordCostsContainer | internal/state/reconciler.go:146-194 | a live container whose record sits at an orphan's key loses it in one round and is removed in the next |
| ReconcilerRounds.SurvivesExactlyWhen | internal/state/reconciler.go:71-198 | from any state, which containers are left once rounds have settled: exactly those in some set of listed containers that each have a record at a key nobody outside the set asks for, a condition on the first state alone |
| ReconcilerRounds.KnownSurviveInSafeState | internal/state/reconciler.go:71-198 | when no unknown container's key holds the record of a listed one, these are exactly the containers that the store mentions |
| ReconcilerRounds.BatchIsRecordedExactlyWhen | internal/state/reconciler.go:151-180 | a container of the batch becomes known iff the key of its record is free, removed or not |
| ReconcilerRounds.LockedOrphanLeavesNoTrace | internal/state/reconciler.go:151-193 | a single unknown container under a locked key goes in one round, and no record is left of it |
| ReconcilerRounds.OneFailureKeepsContainer | internal/state/reconciler.go:151-193 | any single unknown container: after one failed removal under a free key no later round removes it, under a locked key the next one does |
| ReconcilerRounds.FailedRemovalIsForgottenExactlyWhen | internal/state/reconciler.go:151-193 | a container whose removal fails stays, and stays unknown iff the key of its record was locked, under any other locks and failures |
| ReconcilerRounds.FailedRemovalIsNeverRetriedExactlyWhen | internal/state/reconciler.go:151-193 | after any sufficient number of later calm rounds such a container still runs iff the key of its record was free when the removal failed |
| ReconcilerRounds.OrphansAreRecordedAs | internal/state/reconciler.go:140-172 | the record of an unknown container with a free key of its own, field by field: orphan, its labels, its full ID, both times the clock reading, under its kind and the first 12 characters of its ID |
| ReconcilerRounds.RecordsChangeOnlyIn | internal/state/reconciler.go:91-117 | any other record changes only when its container is gone and its key is free, and then only to terminated with the new update time |
| ReconcilerRounds.OrphanLifecycle | internal/state/reconciler.go:71-198 | unknown, then orphan and removed after one calm round, then terminated after the next |
| PubSub.PubSubBackend.HandleCreateTopic | internal/service/pubsub/handlers.go:16-43 | exactly the specified new state and response, with the checks in their order |
| PubSub.PubSubBackend.HandleDeleteTopic | internal/service/pubsub/handlers.go:81-102 | the topic, its subscriptions and their queues go, nothing else changes |
| PubSub.PubSubBackend.DeleteSubscriptionsOf | internal/service/pubsub/handlers.go:93-99 | the cascade deletes exactly the topic's subscriptions, in any map order |
| PubSub.PubSubBackend.HandleCreateSubscription | internal/service/pubsub/handlers.go:175-224 | an empty queue for an existing topic and a new name, with the default deadline for 0 |
| PubSub.PubSubBackend.HandleDeleteSubscription | internal/service/pubsub/handlers.go:271-285 | the subscription and its queue go, nothing else changes |
| PubSub.PubSubBackend.NextMessageID | internal/service/pubsub/service.go:56-59 | the counter goes up by one and is the new number |
| PubSub.PubSubBackend.ExceedsLimits | internal/service/pubsub/handlers.go:115-127 | true iff one message or all together exceed 10 MiB |
| PubSub.PubSubBackend.FanOutMessage | internal/service/pubsub/handlers.go:141-169 | one message under the next number to every subscription of the topic that has room, in any map order |
| PubSub.PubSubBackend.HandlePublish | internal/service/pubsub/handlers.go:105-172 | all messages fanned out in order, and their numbers returned; a refused publish changes nothing |
| PubSub.PubSubBackend.HandlePull | internal/service/pubsub/handlers.go:289-345 | returns and removes the first min(limit, length) messages |
| PubSub.PubSubBackend.Compact | internal/service/pubsub/handlers.go:374-380 | compacting in place leaves at the front of the array exactly the messages that are not acknowledged, in order |
| PubSub.PubSubBackend.HandleAcknowledge | internal/service/pubsub/handlers.go:349-383 | exactly the queued messages with these ackIDs leave the queue; unknown ackIDs are ignored |
| PubSub.PublishKeepsKeys | internal/service/pubsub/handlers.go:141-169 | publishing changes neither topics nor subscriptions nor which queues exist, and advances the counter by the batch size |
| PubSubRuns.PulledThenQueuedIsTheLog | internal/service/pubsub/handlers.go:138-169 | over any run, what was pulled followed by the queue is the log of accepted messages, in order and without repeats, minus exactly those acknowledged while queued: FIFO, at most once |
| PubSubRuns.RequestKeepsInv | internal/service/pubsub/handlers.go:16-383 | every request keeps the queues and pulls explained by the logs, topics of subscriptions existing, and returned messages out of every queue |
| PubSubRuns.LogIsAppendOnly | internal/service/pubsub/handlers.go:138-383 | no request rewrites a log: entries keep place and message and leave the queue once |
| PubSubRuns.PullMarksPrefix | internal/service/pubsub/handlers.go:317-338 | a pull moves the front of the queue to the end of the delivered messages |
| PubSubRuns.AckRemovesFromQueue | internal/service/pubsub/handlers.go:366-380 | an acknowledgement takes from the queue exactly the named messages and no delivered one |
| PubSubRuns.BatchFillsQueueInOrder | internal/service/pubsub/handlers.go:141-169 | of a batch, each subscription of the topic takes the longest prefix that fits into its own queue, numbered and in order, and every other subscription takes nothing |
| PubSubRuns.DroppedExactlyWhenOwnQueueIsFull | internal/service/pubsub/handlers.go:151-157 | each message of a batch is dropped for a subscription iff that subscription's own queue holds 10000 when the message is fanned out |
| PubSubRuns.ReachableBackends | internal/service/pubsub/handlers.go:81-216 | in every reachable state queues and subscriptions match, topics exist, queues have at most 10000 messages with increasing numbers within the counter and ackIDs of their own |
| PubSubRuns.AckIDDeterminesMessage | internal/service/pubsub/handlers.go:159 | an ackID determines the message number and the subscription |
| PubSubRuns.AcknowledgingPulledMessagesChangesNothing | internal/service/pubsub/handlers.go:349-383 | after any run, acknowledging anything that pulls returned changes nothing, also after deleting and recreating a subscription |
| PubSubRuns.PublishedIDsAreQueued | internal/service/pubsub/handlers.go:138-171 | publish answers with one ID per message, and each message that fits is queued in order with its content under the ID of the answer |
| PubSubRuns.PublishedIDsAreUnique | internal/service/pubsub/handlers.go:142-143 | no two IDs of one answer or of two answers are equal, whatever happens in between |
| PubSubRuns.PulledUnderItsPublishedID | internal/service/pubsub/handlers.go:105-345 | over any run, what a pull returns under a published ID is the message that was published under it |
| PubSubRuns.PullReturnsAsManyAsAsked | internal/service/pubsub/handlers.go:297-338 | a pull returns and removes as many messages as asked for or all there are; 0 asks for 100, and less than 0 or more than 1000 is refused |
| PubSubRuns.TopicsComeAndGo | internal/service/pubsub/handlers.go:16-102 | a created topic is there, a deleted one is gone with exactly its own subscriptions and queues |
| PubSubRuns.SubscriptionsComeAndGo | internal/service/pubsub/handlers.go:175-285 | a created subscription begins empty under an existing topic, a deleted one is gone with its queue, and others stay |
| PubSub.SizesAddUp | internal/service/pubsub/handlers.go:115-127 | the limit of ten MiB holds for each message and for the sum of all sizes |
| Ports.PortManager.AllocatePort | internal/resource/port.go:35-69 | the new maps and the answer are those of the specified choice; a refusal changes nothing |
| Ports.PortManager.AllocateAnyPort | internal/resource/port.go:73-89 | the lowest free port of the range, or a refusal without change |
| Ports.PortManager.ReleasePort | internal/resource/port.go:93-107 | the port and its count go, an unallocated port is ignored |
| Ports.PortManager.AssignPort | internal/resource/port.go:129-132 | both maps record the port |
| Ports.PortManager.IsLimited | internal/resource/port.go:120-126 | true iff a positive limit is reached |
| Ports.PortManager.Search | internal/resource/port.go:54-59 | the linear search finds the lowest free port between the bounds, or none |
| Ports.FirstFreeIsLowest | internal/resource/port.go:54-66 | the search result is free and lowest, and none iff all are used |
| Ports.ChoiceIsCyclicFirstFit | internal/resource/port.go:43-68 | for a preferred port in range: the free port that minimises the cyclic distance, and failure iff the range is full |
| Ports.ChoiceOutsideIsLowest | internal/resource/port.go:49-66 | below the range and one above it: the lowest free port |
| Ports.ChoiceFailsOrEscapesExactlyWhen | internal/resource/port.go:43-68 | for every preferred port: exactly when allocation fails, and exactly when it hands out a port outside the range |
| Ports.EscapingPort | internal/resource/port.go:60-66 | a concrete full range and preferred port for which a port above the range is handed out |
| Ports.RunKeepsInvariants | internal/resource/port.go:35-132 | over every run the counts equal the ports held without zero entries, limits hold, and ports stay in range when asked for at most one above it |
| Ports.OpKeepsInvariants | internal/resource/port.go:35-132 | each operation keeps the same |
| Ports.AssignOwned | internal/resource/port.go:129-132 | an assignment adds the port to its owner and to nobody else, and keeps the counts right |
| Ports.ReleaseOwned | internal/resource/port.go:93-107 | a release takes the port from its owner and from nobody else, and keeps the counts right |
| Ports.AllocationIsGrantedExactlyWhen | internal/resource/port.go:35-69 | a port is granted iff the resource owns fewer than its limit and the search finds one; the resource owns it then, and a refusal changes nothing |
| Ports.AnyAllocationIsGrantedExactlyWhen | internal/resource/port.go:73-89 | the same without a preference, with the lowest free port |
| LambdaPool.LambdaService.StartContainer | internal/service/lambda/invoke.go:205-274 | the allocator and the entry after each way a start can go, with the port given back on every failure |
| LambdaPool.LambdaService.EnsureContainer | internal/service/lambda/invoke.go:158-202 | a pooled container is reused without change; otherwise exactly one start, pooled iff it succeeds |
| LambdaPool.LambdaService.HandleInvoke | internal/service/lambda/invoke.go:134-153 | pool and ports after an invocation, refused without change for unknown functions or at the container limit |
| LambdaPool.LambdaService.ReleasePooled | internal/service/lambda/actions.go:186-195 | the entry leaves the pool and its non-zero port is released |
| LambdaPool.LambdaService.HandleDeleteFunction | internal/service/lambda/actions.go:173-218 | function, pool entry and port go; an unknown function changes nothing |
| LambdaPool.LambdaService.HandleUpdateFunctionCode | internal/service/lambda/actions.go:239-310 | pool entry and port go only when the new code was deployed |
| LambdaPool.LambdaService.Shutdown | internal/service/lambda/lambda.go:97-121 | empties the pool and releases the ports of its entries, visiting each once in any order |
| LambdaPool.PooledPortsAreHeld | internal/service/lambda/lambda.go:97-121 | under conservation no port is released that the function does not hold, and no two functions share one: no double release |
| LambdaPool.StartTakesOnePortOrNone | internal/service/lambda/invoke.go:205-274 | a failed start leaves the allocator as it was, a successful one takes exactly one new port, which is 0 iff port 0 is in range and free |
| LambdaPool.ReleaseUndoesAssign | internal/service/lambda/invoke.go:256-270 | giving back a port just taken restores the allocator |
| LambdaPool.InvokeConserves | internal/service/lambda/invoke.go:134-202 | an invocation, at every failure point, keeps the ports of each function equal to the port of its pooled container |
| LambdaPool.StopConservesExactlyWhen | internal/service/lambda/actions.go:186-195 | stopping a container keeps that iff its port is not 0 |
| LambdaPool.ShutdownConserves | internal/service/lambda/lambda.go:97-121 | shutdown in any order keeps that |
| LambdaPool.PortsConservedExactlyWhen | internal/service/lambda/invoke.go:205-274 | every run of create, invoke, update, delete, shutdown and other services conserves the ports iff port 0 is outside the configured range |
| LambdaPool.PortZeroLeaks | internal/service/lambda/actions.go:190-192 | create, invoke, delete leaves port 0 with a function that no longer exists |
| LambdaPool.UpdateStopsTheContainerExactlyWhenDeployed | internal/service/lambda/actions.go:239-310 | after a deployed update the function is known and not pooled and its non-zero port is free; a refused one changes nothing |
| LambdaPool.DeleteForgetsTheFunction | internal/service/lambda/actions.go:173-218 | after a deletion the function is unknown and not pooled and its non-zero port is free |
| LambdaPool.InvocationIsServedBy | internal/service/lambda/invoke.go:134-202 | an invocation is served by the pooled container without a change, or by one that it started on a port that was free |
| LambdaPool.PooledWasStarted | internal/service/lambda/invoke.go:158-202 | over any run, a pooled container was pooled before it or started by an invocation in it |
| LambdaPool.ServedByNewCode | internal/service/lambda/actions.go:277-295 | over any run, the container that serves a function was started after the last deployed update of its code |
| LambdaStartup.CleanStepKeepsInv | internal/service/lambda/invoke.go:38-54 | each step of concurrent invocations and removals keeps: mutex holders, live startup entries, and nothing pooled while a start is in flight |
| LambdaStartup.SingleStartWithoutFailures | internal/service/lambda/invoke.go:158-202 | in every interleaving in which no start fails at most one start per function is in flight and no live pool entry is overwritten |
| LambdaStartup.SingleStartInCleanRuns | internal/service/lambda/invoke.go:158-202 | the same with failures, as long as no failing start deletes an entry that others wait on |
| LambdaStartup.DoubleStartPossibleExactlyWhen | internal/service/lambda/invoke.go:185-189 | deleting the entry of a failed start allows a later double start iff another invocation waits on it |
| LambdaStartup.AwaitedDropIsReachable | internal/service/lambda/invoke.go:185-189 | two invocations and one failure reach such a deletion |
| LambdaStartup.AwaitedDropAllowsDoubleStart | internal/service/lambda/invoke.go:158-202 | the schedule that then starts the function twice, without a further failure |
| LambdaStartup.DoubleStartOverwrites | internal/service/lambda/invoke.go:191-199 | two starts in flight can end with a live pool entry replaced |
| LambdaStartup.InvocationGoesOn | internal/service/lambda/invoke.go:158-202 | what every step of an invocation depends on: it passes only a pooled function, starts only an unpooled one under the mutex, and pools what it started |
| LambdaPorts.TakenPortIsNew | internal/resource/port.go:35-69 | a start takes a port that nobody has, or fails without change |
| LambdaPorts.PortGoesWithTheContainer | internal/service/lambda/invoke.go:191-274 | a start holds the port it is granted, drops out when there is none, and hands it to the pool entry with its container's ID |
| LambdaPorts.StepLeaksExactlyWhen | internal/service/lambda/invoke.go:158-274 | no step of concurrent starts, failures, removals and other services leaks a port or has one twice in use, except storing over a live pool entry, which leaks exactly that entry's port |
| LambdaPorts.PortIsLostExactlyWhenOverwritten | internal/service/lambda/invoke.go:158-274 | in every interleaving a port is lost iff a live pool entry was replaced, and every release is of the function's own port |
| LambdaPortLoss.DoubleStartLosesPort | internal/service/lambda/invoke.go:158-274 | for every range with two ports above 0, a schedule that loses a port: one failed start, then two starts of one function |
| LambdaPorts.CleanInterleavingsConserve | internal/service/lambda/invoke.go:158-274 | in every interleaving in which no failed start deletes an awaited entry, the ports of functions are exactly those of pool entries and starts in flight, each in use once |
| Idempotency.IdempotencyStore.Gc | internal/gateway/middleware/idempotency.go:87-96 | deletes exactly the expired records, in any order |
| Idempotency.IdempotencyStore.Get | internal/gateway/middleware/idempotency.go:98-110 | the live record, or nothing and an expired one deleted |
| Idempotency.IdempotencyStore.Set | internal/gateway/middleware/idempotency.go:112-116 | the record under its key, all else as before |
| Idempotency.IdempotencyStore.Begin | internal/gateway/middleware/idempotency.go:211-257 | the middleware up to the handler: the records afterwards, and either its own response or the body that the handler gets |
| Idempotency.IdempotencyStore.Finish | internal/gateway/middleware/idempotency.go:259-270 | the middleware after the handler: the new record under the request's key |
| Idempotency.CollectorIsInvisible | internal/gateway/middleware/idempotency.go:87-110 | in every interleaving of lookups, answers and collections, also of concurrent requests and while handlers run, each request gets the verdict of a store that neither deletes nor collects |
| Idempotency.CollectorIsInvisibleFromTheStart | internal/gateway/middleware/idempotency.go:87-110 | in particular from an empty store |
| Idempotency.RecordFollowsAnswers | internal/gateway/middleware/idempotency.go:87-116 | through any interleaving, old clock readings included, the store holds the record of the last answer for a key, or that record has expired |
| Idempotency.VerdictFollowsAnswers | internal/gateway/middleware/idempotency.go:232-257 | a request is answered from the last record of its key while that is live, and runs the handler otherwise |
| Idempotency.RecordSurvives | internal/gateway/middleware/idempotency.go:87-116 | a record is there up to its expiry, and is replaced only by a later answer for its key |
| Idempotency.DuplicateRunsExactlyWhenUnanswered | internal/gateway/middleware/idempotency.go:211-273 | after a request reached the handler, a second one with its service and token does, at any later time, iff no handler has answered for that key in between or the last such answer is more than five minutes old |
| Idempotency.TwoRequestsBothRun | internal/gateway/middleware/idempotency.go:211-273 | two requests with one token, the second before the first is answered: both reach the handler |
| Idempotency.HandlerRunsOncePerToken | internal/gateway/middleware/idempotency.go:211-273 | once a handler has answered, and no handler of a duplicate answers later, for five minutes a request whose body has the same hash gets that answer, any other a 400 in JSON, the handler does not run, and nothing changes |
| Idempotency.HandlerRunsOnceWithoutDuplicates | internal/gateway/middleware/idempotency.go:211-273 | in particular whenever no duplicate is running at the time of the answer, as with sequential requests |
| Idempotency.RequestsMeetExactlyWhen | internal/gateway/middleware/idempotency.go:229 | two requests share a record iff they agree in service and token or one service swallows a colon and a piece of the other's token; never for services with equally many colons |
| Idempotency.ReplayedExactlyToTheSameBody | internal/gateway/middleware/idempotency.go:230-250 | with an injective hash a live record is replayed exactly to the body it was made for, and another body within a MiB gets 400 |
| Idempotency.RecordIsGoneAfterFiveMinutes | internal/gateway/middleware/idempotency.go:87-110 | more than five minutes after its answer a record is not used, and lookup and collector delete it |
| Idempotency.CollectorKeepsTheLiving | internal/gateway/middleware/idempotency.go:87-96 | until then the collector keeps it, as every record that has not expired |
| Idempotency.TokenIsTakenFrom | internal/gateway/middleware/idempotency.go:188-226 | GCP's header comes first; without a token the request passes whole and unrecorded, with one and no readable body it gets 400 |
| Idempotency.BodyArrivesWholeExactlyWhen | internal/gateway/middleware/idempotency.go:215-227 | the handler gets the whole body iff the request has no token or the body fits into a MiB |
| Idempotency.BodiesAreNotToldApartExactlyWhen | internal/gateway/middleware/idempotency.go:222-230 | two bodies get the same verdicts from all stores iff they agree on the first MiB |
| Idempotency.LongBodiesAreNotToldApart | internal/gateway/middleware/idempotency.go:222-230 | they then leave the same records as well |
| Idempotency.LastByteIsLost | internal/gateway/middleware/idempotency.go:222-250 | two bodies that differ in the byte behind the first MiB: the second gets the answer to the first |
| FileStore.FileBackedStore.constructor | internal/state/file.go:23-43 | restores a readable snapshot as it is, starts empty otherwise, and leaves the file alone; the store is valid iff the snapshot keys its resources as the store does |
| FileStore.FileBackedStore.AtomicWrite | internal/state/memory.go:172-194 | the file is the new data iff every step succeeded and untouched otherwise; no temporary file remains |
| FileStore.FileBackedStore.Snapshot | internal/state/memory.go:136-151 | the same with the current memory |
| FileStore.FileBackedStore.PutResource | internal/state/file.go:46-51 | nil iff the file restores to the new memory; an error leaves memory changed and file unchanged |
| FileStore.FileBackedStore.DeleteResource | internal/state/file.go:54-59 | the same for Delete |
| FileStore.EveryCrashRecoversPastMemory | internal/state/memory.go:136-194 | under every interleaving, failure and crash, after the first rename the file is a whole past memory, and a restart brings that back |
| FileStore.StepKeepsWriters | internal/state/memory.go:172-194 | each step keeps every writer's temporary file its own, and partial or whole as its place in the protocol says |
| FileStore.StepKeepsFile | internal/state/memory.go:189-193 | each step keeps the state file a past memory |
| FileStore.SingleWriterIsDurable | internal/state/file.go:46-59 | with one writer at a time, when Put or Delete returns nil the file restores to the current memory |
| FileStore.RenameIsDurableExactlyWhen | internal/state/memory.go:189-193 | a rename leaves a file that restores to the memory iff the writer's copy is still the memory |
| FileStore.UpdateCanBeLostExactlyWhen | internal/state/file.go:46-59 | in every reachable state: all operations under way can return nil with a file that differs from the memory iff some writer holds a copy that is no longer current, or nothing is under way and the file is behind already |
| FileStore.ChangeCanBeLostExactlyWhen | internal/state/file.go:46-59 | a change can be lost although every operation under way returns nil iff another writer holds a different copy when it is made |
| FileStore.LateRenameLosesUpdate | internal/state/file.go:46-59 | the shortest case: two writers whose renames cross, both return nil and the file holds the older snapshot |
| FileStore.FailureLeavesNoTrace | internal/state/memory.go:172-194 | an operation that fails leaves the file alone and takes its temporary file away |
| RunInstances.EC2Service.Run | internal/service/ec2/actions.go:239-472 | store, containers and response are those of the specified request for every pattern of failures |
| RunInstances.EC2Service.Launch | internal/service/ec2/actions.go:346-438 | launches up to the first failure, with what the failing attempt leaves |
| RunInstances.EC2Service.LaunchOne | internal/service/ec2/actions.go:346-438 | one attempt: exactly one instance and container, or none, and then at most a record left by a failing store and a container that cannot be removed |
| RunInstances.EC2Service.RollBack | internal/service/ec2/actions.go:441-461 | removes exactly the launched records, and the launched containers that can be removed |
| RunInstances.EC2Service.GroupsExist | internal/service/ec2/actions.go:290-299 | true iff every named group is stored |
| RunInstances.RollBackUndoesLaunch | internal/service/ec2/actions.go:346-461 | rolling back new instances restores the store, and the containers except those that cannot be removed |
| RunInstances.BelowMinimumIsUndoneExactlyWhen | internal/service/ec2/actions.go:440-464 | below the minimum the containers are as before iff every started one can be removed, and the store is iff the failing attempt did not fail in a store that had already changed |
| RunInstances.LaunchedInstances | internal/service/ec2/actions.go:253-277 | a 200 returns between the effective minimum and maximum of new running instances sharing one reservation |
| RunInstances.LaunchedWorld | internal/service/ec2/actions.go:346-438 | a 200 adds those records and containers and keeps every other resource; it adds nothing else iff the attempt that ended the loop left no record and no container |
| RunInstances.TenIsExceededExactlyWhen | internal/service/ec2/actions.go:253-277 | a 200 returns more than ten instances iff the requested minimum is more than ten |
| RunInstances.LaunchedInstanceIs | internal/service/ec2/actions.go:346-437 | every instance of a 200 field by field: its ID, container, type, groups, address, state and times |
| RunInstances.RefusedExactlyWhen | internal/service/ec2/actions.go:239-331 | which requests are refused before any launch, and that they change nothing |
| RunInstances.WithoutFailureAllAreLaunched | internal/service/ec2/actions.go:253-277 | without a failing attempt as many are launched as asked for, with the defaults and the raised maximum |
| RunInstances.ElevenInstances | internal/service/ec2/actions.go:268-277 | a 200 with eleven instances |
| RunInstances.BelowMinimumLeavesRecord | internal/service/ec2/actions.go:415-464 | a launch below the minimum that leaves a record without a container |
| RunInstances.BelowMinimumLeavesContainer | internal/service/ec2/actions.go:415-464 | a launch below the minimum that leaves a container without a record |
| RunInstances.LaunchLeavesRecord | internal/service/ec2/actions.go:415-438 | a 200 that leaves the record of an instance whose container is gone |
| References.Handlers.CreateVpc | internal/service/vpc/actions.go:30-74 | new store and response for every branch |
| References.Handlers.DeleteVpc | internal/service/vpc/actions.go:78-126 | refused while a subnet names the VPC, found through the filter of List; otherwise only the VPC goes |
| References.Handlers.CreateSubnet | internal/service/vpc/actions.go:172-220 | stored only when the VPC exists |
| References.Handlers.DeleteSubnet | internal/service/vpc/actions.go:223-245 | only the subnet goes |
| References.Handlers.CreateSecurityGroup | internal/service/sg/actions.go:110-176 | stored only when no group has the name, found through the filter of List |
| References.Handlers.DeleteSecurityGroup | internal/service/sg/actions.go:180-223 | refused while a stored instance of any state names the group; otherwise only the group goes |
| References.Handlers.CreateRole | internal/service/iam/actions.go:41-93 | stored only when the name is free |
| References.Handlers.DeleteRole | internal/service/iam/actions.go:115-145 | refused while an attachment names the role; otherwise only the role goes |
| References.Handlers.AttachRolePolicy | internal/service/iam/actions.go:418-464 | an attachment of an existing role, stored at most once |
| References.Handlers.DetachRolePolicy | internal/service/iam/actions.go:466-487 | only the attachment goes |
| InstanceStates.InstanceHandlers.ChangeInstance | internal/service/ec2/actions.go:47-101 | one instance of a start, stop or terminate request: refusals, no-ops, what Docker does to the container, and the new record |
| InstanceStates.InstanceHandlers.ChangeInstances | internal/service/ec2/actions.go:37-174 | the instances of a request in order up to the first refusal, with what was changed before it kept, and the list of changes otherwise |
| InstanceStates.ChangeDoes | internal/service/ec2/actions.go:57-94 | what a request that goes through does: the state and time of the record, and the container paused, unpaused or removed |
| InstanceStates.StatesHaveCodes | internal/service/ec2/actions.go:641-658 | the code of each state |
| InstanceStates.RefusalChangesNothing | internal/service/ec2/actions.go:47-79 | why a stored instance is refused, and that nothing changes then |
| InstanceStates.RepeatingChangesNothing | internal/service/ec2/actions.go:61-69 | asking for the present state succeeds without a change |
| InstanceStates.ChangesNameTheTargets | internal/service/ec2/actions.go:37-174 | the list of changes names the instances of the request in order |
| InstanceStates.StartUndoesStop | internal/service/ec2/actions.go:37-174 | stopping and starting a running instance restores its container, and its record up to the time of the update |
| InstanceStates.TerminatedIsFinal | internal/service/ec2/actions.go:37-638 | no start, stop or terminate request changes a terminated instance |
| InstanceStates.RequestsKeepAgreement | internal/service/ec2/actions.go:37-638 | whatever is requested and whatever Docker refuses, running instances keep unpaused containers and stopped ones paused containers |
| References.FilteredBySpec | internal/state/memory.go:49-113 | List with a spec: filter is non-empty iff some stored resource has that value |
| References.DeleteKeepsIntactExactlyWhen | internal/service/sg/actions.go:194-211 | deleting a stored group, VPC or role leaves no dangling reference iff nothing names it: the handlers' guard is exact |
| ReferenceRuns.EveryCallKeepsConsistent | internal/service/ec2/actions.go:239-638 | every handler call, with any inputs and failures, keeps every reference |
| ReferenceRuns.RunInstancesKeepsConsistent | internal/service/ec2/actions.go:279-464 | launch, rollback and leftovers keep every reference |
| ReferenceRuns.ReferencesNeverDangle | internal/service/vpc/actions.go:85-117 | over any run from an empty store, every group named by an instance, VPC named by a subnet and role named by an attachment is stored under that very kind and ID |
| ReferenceRuns.DeletionTakesExactly | internal/service/sg/actions.go:180-223 | a group, VPC or role is deleted iff it is stored and nothing names it, and then it alone is gone |
| ReferenceRuns.SubnetProtectsVpc | internal/service/vpc/actions.go:78-245 | a created subnet makes the deletion of its VPC fail, until it is deleted itself |
| ReferenceRuns.InstanceProtectsGroups | internal/service/sg/actions.go:194-211 | a launched instance makes the deletion of each of its groups fail |
| ReferenceRuns.AttachmentProtectsRole | internal/service/iam/actions.go:115-145 | an attached policy makes the deletion of its role fail |
| ReferenceRuns.CreatedIsStored | internal/service/vpc/actions.go:30-74 | what is created is stored under the ID of the answer and nothing else is, and taken group and role names are refused |
| ReferenceRuns.SameIDExactlyWhen | internal/service/iam/actions.go:434 | two role and policy pairs give the same attachment ID iff they are equal or one role swallows a colon and a piece of the other's policy |
| ReferenceRuns.AttachingWorksExactlyWhen | internal/service/iam/actions.go:418-464 | after a successful attach the policy is attached to the role iff no other pair with the same ID was |
| ReferenceRuns.DetachingTakesExactly | internal/service/iam/actions.go:466-487 | a successful detach takes exactly the attachments with that ID, whichever role they belong to |
| ReferenceRuns.CollidingAttachments | internal/service/iam/actions.go:418-487 | for any two such pairs: attach reports success and stores nothing, the role can be deleted, and detach takes the other role's policy |
| SigV4.UriEncode | internal/service/gcs/sigv4.go:125-135 | the loop prints the specified encoding |
| SigV4.DecodeUndoesEncode | internal/service/gcs/sigv4.go:125-142 | percent-decoding gives every byte string back |
| SigV4.PrintedExactlyWhenCanonical | internal/service/gcs/sigv4.go:125-142 | the printable texts are exactly those of unreserved characters and upper-case triplets of other bytes |
| SigV4.EncodingIsFree | internal/service/gcs/sigv4.go:125-142 | no separator and no line end occurs in encoded text |
| SigV4.CanonicalQueryString | internal/service/gcs/sigv4.go:107-122 | the result is the query over the sorted keys, whatever order the map is iterated in |
| SigV4.LessMeaning | internal/service/gcs/sigv4.go:113 | keys are ordered bytewise: the first difference decides, and a prefix comes first |
| SigV4.KeyListIsUnique | internal/service/gcs/sigv4.go:113 | there is only one strictly sorted list of the keys |
| SigV4.QueryIsUnique | internal/service/gcs/sigv4.go:107-122 | two runs on the same parameters print the same text |
| SigV4.ParseUndoesQuery | internal/service/gcs/sigv4.go:115-121 | parsing the query gives every key with its values in order, except keys without values |
| SigV4.QueriesEqualExactlyWhen | internal/service/gcs/sigv4.go:107-122 | two query strings are equal iff their parameters are, keys without values aside |
| Signing.SignRequest | internal/service/gcs/sigv4.go:22-79 | the headers after signing: date, body hash and the specified Authorization, all else as before |
| Signing.CanonicalRequestsEqualExactlyWhen | internal/service/gcs/sigv4.go:40-52 | two canonical requests are the same text iff verb, path (empty is /, line feeds allowed), query, host, body hash and date agree |
| Signing.SignedContentIs | internal/service/gcs/sigv4.go:34-47 | what of a request is signed, with the URL's host and the path / where they are missing |
| Signing.HexByteIs | internal/service/gcs/sigv4.go:81-84 | a byte of a hash prints as two lower-case digits of its value |
| Signing.SignatureIs | internal/service/gcs/sigv4.go:54-75 | the signature from the secret through date, region, service and terminator, over the algorithm, the time, the scope and the hash of the canonical request |
| Signing.SignaturesEqualExactlyWhen | internal/service/gcs/sigv4.go:40-75 | for hash functions without collisions two signatures are equal iff secret, date, time and canonical request are |
| Signing.SignedRequestIsRecognisedExactlyWhen | internal/service/gcs/sigv4.go:57-78 | a signed request parses back to its components iff access key and date are free of separators and leading space, and its service is then found as s3 |
| Authorization.ParseAuthorization | internal/auth/aws_sigv4.go:41-93 | the loop with its early errors computes the specified result |
| Authorization.RoundTripsExactlyWhenClean | internal/auth/aws_sigv4.go:41-93 | a printed header parses back to its components iff they are clean: no slash in the credential parts, no comma, no outer white space |
| Authorization.ParsedIsClean | internal/auth/aws_sigv4.go:41-93 | whatever header is accepted, its components are clean |
| Authorization.EveryParsedHeaderHasAPrintedForm | internal/auth/aws_sigv4.go:41-93 | any accepted header, however spaced and ordered, has the components of a printed one |
| Authorization.AcceptedExactlyWhen | internal/auth/aws_sigv4.go:41-93 | which headers are accepted: the algorithm first, parameters only, all three names, and a last credential of five pieces with the right end |
| Authorization.PathsNameServices | internal/gateway/middleware/idempotency.go:140-156 | the services of the known paths, and the fallbacks behind them |
| Authorization.ScopeRoundTrip | internal/auth/aws_sigv4.go:74-80 | the credential splits into exactly its five parts |
| Authorization.DetectServiceFromRequest | internal/gateway/middleware/idempotency.go:122-157 | the loop computes the specified service, with the fallbacks in order |
| Authorization.DetectionAgreesExactlyWhen | internal/gateway/middleware/idempotency.go:122-157 | for every header that the verifier accepts: detection finds its service iff the part it takes is the verifier's credential or names the same service, or, where it takes no part, path and fallback header happen to name it |
| Authorization.OneCredentialIsDetectedExactlyWhen | internal/gateway/middleware/idempotency.go:122-157 | with one credential that is: a space after the algorithm and none before the equals sign, or a fitting path |
| Authorization.TabHidesTheService | internal/gateway/middleware/idempotency.go:125-126 | a tab after the algorithm is accepted by the verifier and hides the service from the detection |
| Authorization.TwoCredentialsDiffer | internal/gateway/middleware/idempotency.go:127-137 | with two credentials the verifier takes the last and the detection the first |
| Authorization.DetectionAgreesWithParsing | internal/gateway/middleware/idempotency.go:122-138 | for every clean printed header detection and parsing find the same service |

## Left out

Modelled in a narrower form:

- Locks.LockManager.LockAttempt: is one turn of the retry loop of Lock; the loop itself, its wait and its timeout are the steps Enter, Wake and Timeout of `LockSchedules.dfy`, because a method cannot block. The timeout may come at any time, so the default timeout is not a number here.
- LockSchedules.FreeKeyIsWithinReach: says what a waiter can do next, not that a fair scheduler lets it; the lock has no fairness of its own.
- Reconciler.ReconcilerService.Reconcile: is atomic; a round that runs beside other writers would write back the copies it listed. List does not fail in either store; Put errors, which the code ignores, come in the file-backed store after the change of memory, so the memory after a round is the same.
- ReconcilerRounds.RoundsAlwaysSettle: is for rounds with a remover that succeeds, no lock held and no new containers.
- LambdaPool.PortsConservedExactlyWhen: is about sequential runs and non-empty container IDs; for interleavings see `LambdaPorts.dfy`.
- LambdaPorts.PortIsLostExactlyWhenOverwritten: is for ranges without port 0, which is lost even in sequential runs; shutdown is the removal of every pooled function.
- FileStore.EveryCrashRecoversPastMemory: takes rename as atomic and JSON as a round trip; a file is a whole snapshot, a part of one, or something else.
- FileStore.UpdateCanBeLostExactlyWhen: is about operations that return nil; an operation that fails leaves its change out of the file in any case.
- RunInstances.EC2Service.Run: takes the parsed parameters (with the default instance type filled in), the limit checks and the outcome of each launch and removal as inputs, and container IDs that are new, as Docker's are; that generated instance IDs are new is assumed only where a lemma says so. Deleting a record takes effect in memory even where the file-backed store reports an error.
- InstanceStates.InstanceHandlers.ChangeInstance: is over the memory store, keyed as it always is; a nil Spec is a panic, after which the record is as before.
- ReferenceRuns.ReferencesNeverDangle: covers the handlers named there; the administrative DELETE, the TTL worker and the cleaner delete without dependency checks and are not part of it.
- Signing.CanonicalRequestsEqualExactlyWhen: is for verbs, hosts and time stamps without line feeds, which they never have; paths may have them.
- SigV4.CanonicalQueryString: is not compared with the ordering that AWS prescribes; the code sorts keys before encoding them and does not sort repeated values.
- Authorization.DetectServiceFromRequest: reads the path and two headers; the rest of the request is not modelled.

Not modelled:

- HTTP, routing, XML and JSON, logging, metrics, configuration and the admin interface; request bodies are decoded values, or absent when malformed.
- Docker beyond a set of containers with failing calls; MinIO, Redis, relational databases, DynamoDB and k3s, whose start-up can keep a port.
- SHA-256 and HMAC: arbitrary functions, and nothing is assumed of them.
- Machine integers: counters, ports and times are unbounded.
- Aliasing: Get, List and Put copy a resource shallowly, so handlers that edit a Spec before failing also edit the stored one; resources are values here.
- Fields without influence on the proved behaviour: labels, ARNs and IDs of roles, creation times of topics, rule lists of security groups, LaunchTime.
- Store errors in the create and delete handlers: the model is of the memory store, whose calls do not fail; the file-backed case is in `FileStore.dfy` and `RunInstances.dfy`.
- Describe, list, tag, rule, user and policy operations: they read or edit single resources and would only add easy members.
