# A model of kview's read-side dataplane

This project models the code under `internal/dataplane` of kview that fetches, caches,
persists, searches and enriches Kubernetes lists, and two small compilers under
`internal/kube`, and proves what they promise over every input and every run.
`dafny verify dfyconfig.toml` checks all of it.

The parts, and the files they are in:

- **Scheduler** (`Scheduler`, `SchedulerRuns`, `SchedulerTheorems`, `SchedulerOutcomes`, `SchedulerLeaks`,
  `SchedulerCode`, `WaiterHeap`, `Retry`). Calls for the same key share one execution; a cluster's lane has a bounded number of slots; waiters
  are granted by priority and arrival; a more urgent caller asks a less urgent run to stop. Each section under the
  mutex is one atomic step of a transition system with any number of callers; a context can end at any moment. The
  class `WorkScheduler` edits lanes, runners and the heap the way the source does and is shown to take exactly those
  steps. The retry loop and its backoff are separate.
- **Persistence and search** (`Bytes`, `Splitting`, `Keys`, `Rows`, `Persistence`, `PersistedRuns`, `IndexSearch`,
  `Answers`, `PersistenceCode`, `Search`, `Orders`). Three ordered buckets against a plain map from cells to snapshots; cursor
  walks; base64url keys; and the search that merges rows in memory with a truncated fetch of persisted rows.
- **Workload patches** (`Json`, `WorkloadPatch`, `WorkloadEffects`, `WorkloadCode`). JSON values, JSON Pointer (section 4 of RFC 6901), add, remove and
  replace (sections 4.1 to 4.3 of RFC 6902), and the compiler against the direct edit of the document.
- **Accounting and revisions** (`MapSums`, `Accounting`, `SnapshotStore`, `SnapshotWorld`). Incremental 64-bit
  counters against sums over what is stored, for any sequence of operations on any number of stores.
- **Policies** (`Policy`, `PolicyOrders`, `Bundles`, `BundleOrders`, `PolicyEffects`, `PolicyCode`), **work order**
  (`WorkOrder`), **sweep** (`Sweep`) and **enrichment sessions** (`Enrichment`, `EnrichmentEffects`, `EnrichmentCode`).
- **Shell quoting** (`ShellQuote`) against a reader of sections 2.2.2 and 2.2.3 of the POSIX Shell Command Language.

Definitions shared by the code and its transition systems are also tied to what they stand for: `Answers`,
`WorkloadEffects`, `PolicyEffects`, `EnrichmentEffects`, `PersistedRuns` and `SchedulerOutcomes` state the results of
the operations in the terms of their inputs, without those definitions.

`strings.ToLower`, `strings.TrimSpace`, the table of signal types, regular expressions and the size of an encoded
snapshot are arbitrary functions; clocks and API results are parameters; each walk over a map meets its keys in an
arbitrary order of its own.

## Where the code is weaker than it looks

- A waiter whose slot was granted may still return its context's error, because both cases of the select are ready. Its
  slot is then never freed (`LeaksAreForGood`). `ASlotCanLeak` is such a run with one slot; `LeakExactlyWhenGrantDropped`
  says that slots are lost in exactly the runs with such a step (`internal/dataplane/scheduler.go:374-383`). A more urgent
  caller can then park on the leaked runner and sleep for good (`ACallerCanSleepForGood`); without leaks every parked
  caller has a wake-up to come (`ParkedWillBeWoken`).
- The backoff doubles in 64 bits before it is capped, and a wait can come out negative (`ALongWaitWraps`). `BackoffExact`
  says for which configurations no wait of the loop does (`internal/dataplane/scheduler.go:474-477`). The callers always
  pass 100 ms and 1500 ms (`internal/dataplane/manager.go:342`, `internal/dataplane/manager.go:408`) and so never get
  there (`ConfiguredWaitsAreExact`).
- A comment says that favourites beat recency (`internal/dataplane/namespace_enrich_score.go:18`); they do with fewer
  than 20 recent names (`FavouritesOutrank`, `FavouritesCanLose`). The focus is first up to 1979 recent names and not
  beyond (`FocusIsFirst`, `FocusCanLose`); a validated policy allows 200 (`PolicyKeepsFocusFirst`).
- The fallback of the background limit can exceed a limit of 1 (`internal/dataplane/policy.go:485`);
  `BackgroundLimitExactly` says when.
- A snapshot whose items name another namespace than its cell can share index keys with another cell, and deleting one
  of the two takes the other's rows out of the index (`AForeignItemCanLoseARow`). Every delete is safe if and only if
  no two cells share a key (`DeletesAreSafeExactlyWhenApart`).
- `decodeSnapshotKey` accepts keys that `snapshotKey` never writes (`DecodingIsNotInjective`);
  `SnapshotKeysExactly` says which keys are read back exactly.
- The dedupe key of a search row with a NUL in a field also belongs to another object; `DedupeKeyExactly` has both
  directions (`internal/dataplane/search.go:149-151`).
- The order in which Go meets the keys of a map can show in a policy: through two spellings of one signal
  (`SpellingsShow`), which also lets a second validation change a validated bundle (`SecondValidationCanDiffer`), and
  through two names of one context (`CollidingNamesShow`). `SignalOrderExactly`, `ContextOrderExactly`,
  `ValidateOrderExactly` and `EffectiveOrderExactly` say exactly when it does (`internal/dataplane/policy.go:562-604`,
  `internal/dataplane/policy.go:926-968`).
- Unsetting a variable removes the first entry of the name only (`UnsetTwiceIsOnce`).

## Model

| member | source | states |
|---|---|---|
| SchedulerRuns.InvKept | internal/dataplane/scheduler.go:323-504 | every step of every caller and of the environment keeps the joint invariant of flights, slots, urgency and outcomes |
| SchedulerTheorems.SingleFlight | internal/dataplane/scheduler.go:404-439 | in every reachable state, two callers inside the work function for the same key are the same caller |
| SchedulerTheorems.ExecutionsAreBounded | internal/dataplane/scheduler.go:333-350 | in every reachable state the executing callers of a cluster all own a ticket of its lane, so they never outnumber its runners |
| SchedulerTheorems.LimitIsRespected | internal/dataplane/scheduler.go:250-261 | no step that raises a lane's runner count raises it above the limit in force after the step, also when the step changes the limit |
| SchedulerTheorems.WorkIsConserved | internal/dataplane/scheduler.go:293-321 | whenever the mutex is free, a lane has as many runners as the limit or no waiter |
| SchedulerTheorems.PoppedIsFirst | internal/dataplane/scheduler.go:163-168 | a queued node that leaves the queue in a step has a better priority than every node that stays, or the same and an earlier number |
| SchedulerTheorems.NoOvertaking | internal/dataplane/scheduler.go:293-372 | over any run, a node that queues up later and leaves while an earlier one still waits has strictly better priority; equal priorities are served in order |
| SchedulerTheorems.NoQueueJumping | internal/dataplane/scheduler.go:329-350 | a caller that was not queued takes a slot only when its lane's queue is empty |
| SchedulerTheorems.PreemptsExactlyWhenWorse | internal/dataplane/scheduler.go:352-358 | a caller preempts if and only if its lane is full and some runner's flight was joined only by less urgent callers |
| SchedulerTheorems.PreemptionIsSafe | internal/dataplane/scheduler.go:276-291 | the runner asked to stop has the worst effective priority of the lane, and nobody who ever joined its flight is as urgent as the caller |
| SchedulerTheorems.SlotOwnersLead | internal/dataplane/scheduler.go:406-425 | whoever holds or awaits a slot leads its own flight, whose effective priority is the best of all who joined |
| SchedulerTheorems.OutcomeIsShared | internal/dataplane/scheduler.go:412-432 | a follower that waits to the end returns what its leader returned, on every exit path of the leader |
| SchedulerTheorems.TicketsHaveOwners | internal/dataplane/scheduler.go:387-399 | tickets of a lane have distinct owners, each live owner is queued, holding or releasing, and the others are exactly the leaked ones |
| SchedulerTheorems.LeakExactlyWhenGrantDropped | internal/dataplane/scheduler.go:374-383 | no state of a run has a leaked ticket if and only if no step of it takes the context's end over a granted slot |
| SchedulerLeaks.ASlotCanLeak | internal/dataplane/scheduler.go:374-383 | a concrete run with one slot ends with the slot taken and no caller left that would release it |
| SchedulerLeaks.LeaksAreForGood | internal/dataplane/scheduler.go:374-399 | over any run a leaked ticket is leaked in every later state |
| SchedulerLeaks.LeakedSlotsAreLost | internal/dataplane/scheduler.go:323-399 | from a leak on, executions never exceed the runners without the leaked ones, and once the leaked ones reach the limit the lane gets no new runner |
| SchedulerLeaks.ParkedWillBeWoken | internal/dataplane/scheduler.go:352-358 | in every leak-free reachable state, for each parked caller a broadcast is owed or its lane has a runner whose caller has yet to release and to broadcast |
| SchedulerLeaks.SleepsForGood | internal/dataplane/scheduler.go:352-358 | a caller parked when every other call is over and no broadcast is owed stays so, its own context's end included, until a call or a limit change comes |
| SchedulerLeaks.ACallerCanSleepForGood | internal/dataplane/scheduler.go:352-383 | a concrete run that leaves a caller parked on a leaked runner in such a state |
| SchedulerOutcomes.CallsAreBounded | internal/dataplane/scheduler.go:461-503 | in every reachable state a leader has called the work function at most as often as the retries it read, and an outcome on its way out is one that its calls, a preemption or the end of its context explain |
| SchedulerOutcomes.OutcomesAreEarned | internal/dataplane/scheduler.go:404-504 | whatever a call returns, as leader or as follower: without a call of the work function by its leader there is only the error of a context that ended; an exhausted loop made all its calls, and a context error after a call means an ended context or a preemption |
| SchedulerOutcomes.CallsAreCounted | internal/dataplane/scheduler.go:461-503 | over any run, the number a leader's loop has counted is the number of calls of the work function it has made |
| SchedulerOutcomes.OnlyEndedFollowersLeave | internal/dataplane/scheduler.go:412-417 | in every reachable state, a caller that left a shared flight early is a follower whose own context ended |
| SchedulerOutcomes.EndedCallersDoNotStart | internal/dataplane/scheduler.go:323-358 | over any run, a leader whose context ended before its last look at it never queues, holds a slot or calls the work function |
| SchedulerOutcomes.GrantsGoToLiveCallers | internal/dataplane/scheduler.go:293-321 | a ticket that appears in a step belongs to the caller of that section, or to a queued caller whose context has not ended |
| SchedulerOutcomes.BroadcastsAreOwed | internal/dataplane/scheduler.go:250-261 | over any run, the broadcasts to come are one for each release and each limit change that has not made its own yet |
| SchedulerOutcomes.LimitInForce | internal/dataplane/scheduler.go:250-261 | over any run the limit in force is the positive limit asked for last, and four if the last one asked for was not positive |
| SchedulerCode.WorkScheduler.GrantNextWaiters | internal/dataplane/scheduler.go:293-321 | the pop loop over the heap yields the lane that repeated grants of the least live waiter yield |
| SchedulerCode.WorkScheduler.FindPreemptVictim | internal/dataplane/scheduler.go:276-291 | the loop finds the first runner with the largest effective priority worse than the need, or -1 if there is none |
| SchedulerCode.WorkScheduler.JoinFlight | internal/dataplane/scheduler.go:405-425 | joining records the flight or lowers its effective priority to the minimum, and nothing else |
| SchedulerCode.WorkScheduler.EnterLane | internal/dataplane/scheduler.go:329-372 | one section of acquireSlot takes a slot, chooses a victim or enqueues, and leaves the shared state the transition system says |
| SchedulerCode.WorkScheduler.ReleaseSlot | internal/dataplane/scheduler.go:387-399 | exactly the caller's ticket goes, then the lane is granted on |
| SchedulerCode.WorkScheduler.SetMaxPerCluster | internal/dataplane/scheduler.go:250-261 | the limit is normalized and every lane is granted up to it |
| WaiterHeap.Push | internal/dataplane/scheduler.go:159-180 | pushing keeps the heap order and adds exactly the new node |
| WaiterHeap.Pop | internal/dataplane/scheduler.go:159-180 | popping returns a node that none precedes, keeps the heap order and loses exactly that node |
| Retry.Attempts | internal/dataplane/scheduler.go:455-503 | the work function runs at most `retries` times; success, other errors and context ends stop at once; exhaustion is deadline exceeded; the k-th wait slept is the k-th backoff, and all waits are min(initial * 2^k, max) if, and for an exhausted loop only if, none comes from a doubling that wraps |
| Retry.EndIsUnique | internal/dataplane/scheduler.go:461-503 | the answers of the environment leave the loop one number of calls and one outcome |
| Retry.EndsAsItMay | internal/dataplane/scheduler.go:461-503 | each end of the loop is one that the transition system allows a leader |
| Retry.BackoffIsCappedDoubling | internal/dataplane/scheduler.go:474-477 | the k-th backoff is min(initial * 2^k, max) as long as the maximum, or the doubling before it, is below 2^62 |
| Retry.BackoffExact | internal/dataplane/scheduler.go:461-478 | all the waits a loop can make are the promised ones if and only if the maximum is below 2^62, or there are fewer than three attempts, or initial * 2^(retries - 3) is below 2^62 |
| Retry.ALongWaitWraps | internal/dataplane/scheduler.go:474-477 | a configuration with three attempts whose second wait is negative |
| Retry.ConfiguredWaitsAreExact | internal/dataplane/manager.go:342-342 | with the waits the manager configures, there and on a policy change, every wait is the promised one for any number of retries |
| Retry.ConfigureIsProper | internal/dataplane/scheduler.go:226-241 | positive values are taken as given, others become three attempts and 100 ms, and the longest wait is at least the first; so there is at least one attempt and 0 < initial <= max |
| Keys.PartRoundTrip | internal/dataplane/persistence.go:721-731 | a key part decodes to what it was made of and holds neither '/' nor NUL, for all bytes |
| Keys.DecodingIsExactOnCanonical | internal/dataplane/persistence.go:725-731 | decoding and encoding again gives a part back if and only if it has no line breaks, whole groups and no stray bits |
| Keys.KnownEncodings | internal/dataplane/persistence.go:721-723 | encodings of section 10 of RFC 4648, and one with both symbols that base64url changes |
| Keys.AlphabetIsTheTable | internal/dataplane/persistence.go:721-723 | the symbols are those of the table in section 5 of RFC 4648, in its order |
| Keys.KnownSnapshotKey | internal/dataplane/persistence.go:686-688 | a literal key: the parts stand in the order cluster, kind, namespace |
| Keys.KnownIndexKey | internal/dataplane/persistence.go:710-719 | a literal index key: the name in lower case, cluster, kind, namespace, and the name as it is |
| Keys.SnapshotKeyRoundTrip | internal/dataplane/persistence.go:686-708 | decodeSnapshotKey undoes snapshotKey for all byte strings |
| Keys.SnapshotKeyInjective | internal/dataplane/persistence.go:686-688 | a snapshot key belongs to one cluster, kind and namespace |
| Keys.DecodingIsNotInjective | internal/dataplane/persistence.go:690-708 | two different keys that decode to the same cell |
| Keys.SnapshotKeysExactly | internal/dataplane/persistence.go:686-708 | a key is read as a cell whose key it is if and only if it splits into three canonical parts |
| Keys.SearchIndexKeyInjective | internal/dataplane/persistence.go:710-719 | two index keys are equal exactly when cell and name are, even with NUL inside names |
| Keys.PrefixOfKeyIsPrefixOfName | internal/dataplane/persistence.go:494-494 | an index key has a NUL-free prefix if and only if the lower-cased name has it |
| Persistence.RunAgrees | internal/dataplane/persistence.go:240-349 | after any run whose saves take no other cell's key, the buckets hold exactly the reference's snapshots, rows and key lists, and no two cells share a key |
| Persistence.IndexAgreesAlways | internal/dataplane/persistence.go:240-349 | the same after every run of saves, deletes and prunes whose items stay in their cell's namespace |
| Persistence.PruneAgrees | internal/dataplane/persistence.go:310-349 | pruning removes exactly the cells in scope with a known time before the cutoff, and their rows |
| Persistence.DeletesAreSafeExactlyWhenApart | internal/dataplane/persistence.go:588-603 | every possible delete keeps the agreement if and only if no two cells share an index key |
| PersistedRuns.StoredExactly | internal/dataplane/persistence.go:240-349 | after any run of saves, deletes and prunes, a snapshot lies under a cell's key if and only if it was saved there and since then not overwritten, deleted, or found older than the age of a prune of its cluster |
| PersistedRuns.ReferenceIsLastSaved | internal/dataplane/persistence.go:240-349 | the same of the reference map, so that what the buckets are compared with is itself fixed by the operations |
| Bytes.BeforeExactly | internal/dataplane/persistence.go:482-504 | the order of the cursor: the first byte that differs decides, and a proper prefix comes first |
| IndexSearch.AForeignItemCanLoseARow | internal/dataplane/persistence.go:648-651 | two saves and a delete after which a stored snapshot's row is missing from the index |
| IndexSearch.PrefixSearchIsFilter | internal/dataplane/persistence.go:482-504 | the prefix walk returns the first rows, in key order, of all stored rows whose lower-cased name has the prefix |
| IndexSearch.NameSearchIsScan | internal/dataplane/persistence.go:506-565 | a name search is the page of the one listing that filtering and sorting a scan of all snapshots gives, ties in key order |
| Answers.SearchesAnswerFromTheReference | internal/dataplane/persistence.go:482-565 | after every run of proper saves, deletes and prunes both searches return a page of the whole answer over the reference |
| Answers.NameSearchAnswers | internal/dataplane/persistence.go:506-565 | a name search returns the rows from offset on, limit at most, of the one list that holds every named item of every stored snapshot whose name contains the trimmed query in any case, ordered by kind group, name, namespace, kind, cluster and key |
| Answers.PrefixSearchAnswers | internal/dataplane/persistence.go:482-504 | a prefix search returns the first rows, in key order, of all named items whose name has the prefix in any case |
| Answers.AnswerIsUnique | internal/dataplane/persistence.go:532-556 | there is only one such list for a query |
| Answers.PagesJoin | internal/dataplane/persistence.go:557-564 | a page and the next one together are the longer page, so no row is lost or shown twice |
| Answers.RowsAreShown | internal/dataplane/persistence.go:632-659 | the rows of a snapshot are exactly those with the name of a named item, its namespace or the cell's, and the cell's cluster, kind and time |
| PersistenceCode.SearchRowsFromSnapshot | internal/dataplane/persistence.go:609-661 | the loop yields one row for each named item, in order, with the cell's namespace where the item has none |
| Rows.RowsOfItemsExactly | internal/dataplane/persistence.go:632-659 | a row is among a snapshot's rows if and only if some named item makes it |
| PersistenceCode.SnapshotPersistence.SaveSnapshot | internal/dataplane/persistence.go:248-286 | the three buckets afterwards are those of the specified transaction |
| PersistenceCode.SnapshotPersistence.DeleteSnapshot | internal/dataplane/persistence.go:289-308 | likewise for a delete |
| PersistenceCode.SnapshotPersistence.PruneOlderThan | internal/dataplane/persistence.go:310-349 | the walk and the deletes one by one leave the store without the stale cells and all their index keys |
| PersistenceCode.SnapshotPersistence.SearchNamePrefix | internal/dataplane/persistence.go:482-504 | seeking and stepping the cursor returns the first rows of the whole answer to the prefix, over any snapshots that the index agrees with |
| PersistenceCode.SnapshotPersistence.SearchName | internal/dataplane/persistence.go:506-565 | the cursor loop, the stable sort and the slice return the page of the whole answer, over any snapshots that the index agrees with |
| Search.DedupeKeyIsFaithful | internal/dataplane/search.go:149-151 | a row without NUL shares its dedupe key with exactly the rows of the same object |
| Search.DedupeKeyExactly | internal/dataplane/search.go:149-151 | a row's dedupe key stands for its object alone if and only if no field of the row holds a NUL |
| Search.AppendUniqueSearchRows | internal/dataplane/search.go:133-147 | the loop with its seen map appends each extra row whose key is new, in order |
| Search.MergedExactly | internal/dataplane/search.go:133-147 | the merge holds every row in memory and every persisted row of an object that is not in memory |
| Search.TruncatedMergeLosesNothing | internal/dataplane/search.go:25-45 | merging only the best limit + offset + 1 persisted rows gives the same page, and the same answer to whether more follows, as merging all |
| Search.AnswerIsWhole | internal/dataplane/search.go:25-45 | the merge shows a wanted row as often as it lies in memory, and once if only the store has its object, sorted by kind group, name, namespace, kind and cluster |
| Search.CachedResourceSearchRows | internal/dataplane/search.go:25-45 | the method returns the rows from offset on, limit at most, of the whole answer over memory and store, or over memory alone without persistence |
| Search.SearchCachedResources | internal/dataplane/manager.go:1594-1618 | the rows are the page of the whole answer and hasMore tells exactly whether more rows follow |
| Search.RunsAreSearchable | internal/dataplane/persistence.go:240-349 | every store reached by proper runs with NUL-free text meets the condition of the two methods above |
| Orders.StableSortKeepsTies | internal/dataplane/persistence.go:542-556 | the stable sort keeps elements that compare equal in the order in which they came |
| Orders.LateElementKeepsFront | internal/dataplane/search.go:153-169 | an element with n elements not after it leaves the first n places of the sorted list alone |
| WorkloadPatch.PatchIsEdit | internal/kube/actions/custom_workload_actions.go:119-178 | applying the compiled operations in order equals the direct edit, for results and for failures |
| WorkloadEffects.EditCarries | internal/kube/actions/custom_workload_actions.go:119-178 | the effect in the terms of the request: it fails exactly for a chosen container without an image; a chosen container gets the image, or its env list loses the first entry of the name, or that entry gets the value and loses its reference, or a new entry comes last; all else stays |
| WorkloadPatch.EditFailsExactly | internal/kube/actions/custom_workload_actions.go:133-137 | patching fails if and only if an image is to be set in a matched container that has none |
| WorkloadPatch.EditTouchesOnlyMatched | internal/kube/actions/custom_workload_actions.go:121-131 | nothing but matched containers changes, and each of them as the one-container edit says |
| WorkloadPatch.SetEnvMeans | internal/kube/actions/custom_workload_actions.go:162-172 | after a set the first entry of the name has the value and no valueFrom, and every other variable is as before |
| WorkloadPatch.SetTwiceIsOnce | internal/kube/actions/custom_workload_actions.go:119-178 | compiling and applying a set a second time changes nothing |
| WorkloadPatch.UnsetTwice | internal/kube/actions/custom_workload_actions.go:156-161 | for one env list, a second unset changes nothing if and only if there was at most one entry of the name |
| WorkloadPatch.UnsetTwiceIsOnce | internal/kube/actions/custom_workload_actions.go:119-178 | compiling and applying an unset a second time changes nothing if and only if no matched container had the name twice |
| WorkloadCode.BuildPatch | internal/kube/actions/custom_workload_actions.go:95-178 | each refusal has exactly its reason; otherwise the count is the number of object containers whose name the pattern accepts, and the operations applied to the document change these containers as asked and nothing else |
| WorkloadCode.EnvOps | internal/kube/actions/custom_workload_actions.go:138-172 | the search loop and the branches emit the operations of the container |
| Json.PointerIsRead | internal/kube/actions/custom_workload_actions.go:131-131 | a pointer printed from tokens without '/' and '~' is read back as those tokens |
| Json.EscapedPointerIsRead | internal/kube/actions/custom_workload_actions.go:131-131 | a pointer printed from any tokens, escaped, is read back as those tokens |
| Json.IndexOfDigits | internal/kube/actions/custom_workload_actions.go:131-131 | a printed position is read back as that array index |
| Accounting.AccountingIsConserved | internal/dataplane/session_stats.go:104-215 | after any sequence of operations all totals are the sums over kinds and over sources, requests are hits plus misses, and current bytes and cells, in all and of each kind, are those of the live cells |
| Accounting.CountersAreExact | internal/dataplane/session_stats.go:180-214 | while the cached bytes fit 64 bits the counters are exact and no deletion can underflow |
| Accounting.KindCountersCount | internal/dataplane/session_stats.go:104-151 | each counter of a kind is the number of operations of that kind so far, modulo 2^64 |
| Accounting.SourceCountersCount | internal/dataplane/session_stats.go:104-151 | likewise for a source, with the empty source counted as "api" |
| Accounting.VolumesAddUp | internal/dataplane/session_stats.go:153-168 | live and hydrated bytes of a kind are the sums of the payloads reported for it |
| Accounting.CellsAreLastReported | internal/dataplane/session_stats.go:170-215 | over any run the ledger knows for a cell the size reported last, unless the cell was deleted since |
| SnapshotStore.SessionStats.RecordRequest | internal/dataplane/session_stats.go:104-126 | the whole new state of the statistics is the specified one |
| SnapshotStore.SessionStats.RecordCacheWrite | internal/dataplane/session_stats.go:170-196 | the two-branch update by the difference is the specified move of bytes and cells |
| SnapshotStore.SessionStats.RecordCacheDelete | internal/dataplane/session_stats.go:198-215 | a known cell's bytes and count go; an unknown one changes nothing |
| SnapshotStore.NamespacedStore.Set | internal/dataplane/snapshot_store.go:108-122 | the namespace holds the new content under its next revision, every other namespace is as before, and the statistics are told the size |
| SnapshotStore.NamespacedStore.Clear | internal/dataplane/snapshot_store.go:124-136 | the snapshot of the namespace alone goes, the revision still advances, and the statistics are told |
| SnapshotStore.NamespacedStore.PeekAll | internal/dataplane/snapshot_store.go:148-159 | exactly the stored snapshots whose time is set |
| SnapshotStore.ClusterStore.Set | internal/dataplane/snapshot_store.go:40-48 | the one snapshot is replaced under the next revision and the statistics are told its size |
| SnapshotWorld.CellsAreTheSnapshots | internal/dataplane/snapshot_store.go:161-173 | over any run of all stores, the counted cells are exactly the stored snapshots with their sizes, and the session's counters are their sum and number |
| SnapshotWorld.StoredIsLastWritten | internal/dataplane/snapshot_store.go:40-136 | over any run of all stores, a cell holds exactly the content written to it last, and nothing if it was cleared since |
| SnapshotWorld.RevisionCountsUpdates | internal/dataplane/snapshot_store.go:108-136 | a namespace's revision is the number of its sets and clears, and a stored snapshot carries it |
| SnapshotWorld.RevisionsIncrease | internal/dataplane/snapshot_store.go:108-136 | of two snapshots seen of a namespace the later has a larger revision unless nothing happened between, across clears |
| SnapshotWorld.WideRevisionCountsUpdates | internal/dataplane/snapshot_store.go:40-48 | the revision of a cluster-wide store is the number of its writes, and its snapshot carries it |
| SnapshotWorld.WideRevisionsIncrease | internal/dataplane/snapshot_store.go:40-48 | of two snapshots of a cluster-wide store the later has the larger revision unless nothing was written between |
| Policy.ValidateIsIdempotent | internal/dataplane/policy.go:440-560 | validating twice is validating once, in whatever order maps are met |
| Policy.FixedPointsExactly | internal/dataplane/policy.go:440-560 | validation leaves a policy alone if and only if every setting is in its range, mirrors agree and overrides are normal |
| PolicyEffects.ValidationSettles | internal/dataplane/policy.go:440-560 | every setting of every policy after validation, in numbers: kept in its range, else its default; a detector without a value takes the older setting, the two quota limits fall back together, and the older settings mirror the detectors; names, kinds, signal overrides and the manual profile likewise |
| PolicyEffects.DefaultIsTheFallback | internal/dataplane/policy.go:302-438 | a policy with every number out of range and the default switches is validated to the default policy |
| Policy.QuotaIsInOrder | internal/dataplane/policy.go:509-544 | a validated policy has 1 <= warn < critical <= 100, in both places |
| Policy.TtlAgreesWithMetrics | internal/dataplane/policy.go:547-551 | the TTL table agrees with the metrics settings and its default kinds are in range |
| Policy.BackgroundLimitExactly | internal/dataplane/policy.go:484-485 | the background limit stays within the limit above it except when that is 1 and another value was asked for |
| PolicyOrders.SignalOrderExactly | internal/dataplane/policy.go:926-946 | the order of a walk over signal overrides shows if and only if two names that trim alike, are known and say something say different things |
| PolicyOrders.ContextOrderExactly | internal/dataplane/policy.go:948-968 | likewise for contexts: if and only if one that says something is ambiguous itself, or two that trim alike say different things |
| PolicyOrders.ValidateOrderExactly | internal/dataplane/policy.go:440-560 | a policy is validated to the same in every order if and only if its two signal maps are clear in this sense or the default replaces it |
| Bundles.PruningPreservesMeaning | internal/dataplane/policy.go:573-604 | whatever overrides are dropped because they change nothing, a context's effective policy is an override written for it applied to the validated global policy, or that policy if there is none; colliding names included |
| BundleOrders.EffectiveOrderExactly | internal/dataplane/policy.go:562-604 | for every bundle, with an order of its own for each walk: a context's effective policy is the same in all orders if and only if its overrides are clear and all that change something resolve to one policy, or, where the global policy is unclear, clear overrides settle it |
| BundleOrders.MeaningIsUnique | internal/dataplane/policy.go:593-604 | in a clear bundle with context names that differ there is only one such policy for all orders |
| Bundles.EffectiveIsValid | internal/dataplane/policy.go:593-604 | every effective policy is a fixed point of validation in any order |
| BundleOrders.BundleValidationIsIdempotent | internal/dataplane/policy.go:562-591 | a clear bundle that has been validated is left alone by validation in any other order, and resolves every context as before |
| BundleOrders.SpellingsShow | internal/dataplane/policy.go:926-946 | a bundle with one context and one signal under two spellings, whose effective policy differs between two orders |
| BundleOrders.SecondValidationCanDiffer | internal/dataplane/policy.go:573-584 | the same bundle is validated to something that a second validation changes |
| BundleOrders.CollidingNamesShow | internal/dataplane/policy.go:574-584 | a bundle with two names for one context, whose effective policy differs between two orders |
| BundleOrders.SurroundingsExist | internal/dataplane/policy.go:574-578 | a trimming function, a signal table and orders as these bundles need them exist |
| Bundles.OverlayReaches | internal/dataplane/policy.go:629-860 | the empty override changes nothing and the full one turns any policy into any other, but for the dashboard settings |
| PolicyEffects.OverlayTakes | internal/dataplane/policy.go:629-860 | each setting of the overlaid policy is the override's where that names it and the global policy's elsewhere |
| PolicyEffects.VersionSettles | internal/dataplane/policy.go:562-572 | a blank version becomes v1, any other is kept, and the global policy is validated |
| PolicyCode.NormalizeSignalOverrides | internal/dataplane/policy.go:926-946 | the loop keeps known, non-empty overrides under their trimmed names |
| PolicyCode.OverlayTtlEntries | internal/dataplane/policy.go:639-645 | the loop deletes entries without a value and sets the others, leaving the rest |
| PolicyCode.ValidateContexts | internal/dataplane/policy.go:573-584 | the loop keeps the overrides that change something |
| PolicyCode.NormalizeWarmKinds | internal/dataplane/policy.go:874-896 | the loop keeps allowed kinds once each, in order, or falls back |
| WorkOrder.BuildEnrichmentWorkOrder | internal/dataplane/namespace_enrich_score.go:89-151 | for any order in which favourites are met, the result is the cut ranking of all eligible names, which is the best-first list below |
| WorkOrder.WorkOrderIsDetermined | internal/dataplane/namespace_enrich_score.go:126-142 | there is only one such result |
| WorkOrder.WorkOrderIsTheBest | internal/dataplane/namespace_enrich_score.go:134-150 | no duplicates, only listed hinted names, within the cap, and nothing left out outranks anything kept |
| WorkOrder.WorkOrderIsBestFirst | internal/dataplane/namespace_enrich_score.go:10-151 | in numbers: a million for the focus, ten thousand for a favourite, 500 for each place from the end of the recent names; more points first, then the earlier place in the list; at most the targets asked for, or 32 |
| WorkOrder.PolicyHintsAreLimited | internal/dataplane/namespace_enrich_score.go:153-176 | a policy leaves of the hints the first recent names and favourites up to their limits, and nothing that it excludes |
| WorkOrder.FocusIsFirst | internal/dataplane/namespace_enrich_score.go:72-85 | a listed focus is first whenever there are at most 1979 recent names |
| WorkOrder.FocusCanLose | internal/dataplane/namespace_enrich_score.go:72-85 | for every larger number of recent names there is a list on which the focus is not first |
| WorkOrder.RecencyOrders | internal/dataplane/namespace_enrich_score.go:80-83 | between names that are both or neither favourites the more recent one comes first |
| WorkOrder.FavouritesOutrank | internal/dataplane/namespace_enrich_score.go:77-83 | with fewer than 20 recent names a favourite beats every name that is neither favourite nor focus |
| WorkOrder.FavouritesCanLose | internal/dataplane/namespace_enrich_score.go:77-83 | with 20 or more there are hints whose every work order starts with the most recent name although a favourite is listed |
| WorkOrder.PolicyKeepsFocusFirst | internal/dataplane/namespace_enrich_score.go:153-176 | under a validated policy that includes the focus, a listed focus is always first |
| Sweep.SelectionIsTheFirst | internal/dataplane/namespace_list_progressive.go:66-115 | a cycle takes only eligible names, within both limits, and leaves an eligible one out only at a limit and behind all it takes |
| Sweep.SelectionIsAsAsked | internal/dataplane/namespace_list_progressive.go:37-118 | in plain terms: unless switched off or paused, the first open places of the list, never swept before swept longest ago before list order, as many as the cycle and what is left of the hour allow |
| Sweep.AfterIsCounted | internal/dataplane/namespace_list_progressive.go:57-118 | the count of the hour starts again after an hour, goes up by what was selected, and nothing else changes |
| Sweep.SelectionExcludes | internal/dataplane/namespace_list_progressive.go:83-98 | no name in focus, no system namespace unless included, and none swept within the interval is taken |
| Sweep.HourlyBudget | internal/dataplane/namespace_list_progressive.go:57-65 | over any timed run, the selections of the hour that started at h are at most the hourly budget |
| Sweep.BudgetInAnyHour | internal/dataplane/namespace_list_progressive.go:57-65 | in any interval shorter than an hour at most twice the hourly budget is selected |
| Sweep.ValidatedBudget | internal/dataplane/policy.go:473-477 | under a validated policy a cycle takes at most 25 and an hour sees at most 500 selections |
| Sweep.TwiceIsReached | internal/dataplane/namespace_list_progressive.go:57-65 | a run in which an interval of one nanosecond holds twice the budget |
| Sweep.Sweeper.SelectNamespaceSweepNames | internal/dataplane/namespace_list_progressive.go:37-118 | the method returns the names of that selection, advances its cluster's count and leaves other clusters alone |
| Sweep.Sweeper.MarkNamespaceSwept | internal/dataplane/namespace_list_progressive.go:169-179 | only the named namespace of the named cluster gets a new time |
| Enrichment.RunKeepsInv | internal/dataplane/namespace_list_progressive.go:261-292 | in every reachable state the counters of every session are what its workers have done, and exactly the current sessions are not cancelled |
| Enrichment.ProgressIsOrdered | internal/dataplane/namespace_list_progressive.go:540-630 | relatedDone <= detailDone <= total always, and they are equal once the session is complete |
| Enrichment.EachNameCountsOnceOverRuns | internal/dataplane/namespace_list_progressive.go:553-626 | over any run, the steps in which worker i of a batch raised a counter are as many as its place in the running batch says, never more than one, and exactly one behind a focused batch that was not cancelled, however calls fail |
| Enrichment.UncancelledBatchCountsAll | internal/dataplane/namespace_list_progressive.go:551-629 | a batch that ends without cancellation has raised both counters by its length |
| Enrichment.BatchIsBounded | internal/dataplane/namespace_list_progressive.go:544-559 | at most maxParallel workers of a batch hold the semaphore |
| Enrichment.WorkerWritesItsRow | internal/dataplane/namespace_list_progressive.go:573-621 | a worker changes only its own row: first the details, then the enrichment fields, neither touching the other |
| Enrichment.ReplacedIsCancelled | internal/dataplane/namespace_list_progressive.go:272-292 | in every reachable state a session that is not its cluster's current one has been cancelled |
| Enrichment.RevisionsIncrease | internal/dataplane/namespace_list_progressive.go:276-291 | a new session's revision is above all earlier ones and a cluster's current revision never falls |
| Enrichment.EnrichedStaysOverRuns | internal/dataplane/namespace_list_progressive.go:348-377 | over any stretch of a run, replacements included, an enriched row stays enriched while its name is listed |
| Enrichment.BeginKeepsOrReplaces | internal/dataplane/namespace_list_progressive.go:261-292 | the same targets keep their session with its counters; others start a new one from nothing, with the old one cancelled |
| EnrichmentEffects.SameListsKeepTheSession | internal/dataplane/namespace_list_progressive.go:261-271 | a session asked for the same lists again is kept with its counters; its rows become those of the list with what they had been enriched with |
| EnrichmentEffects.OtherListsReplaceTheSession | internal/dataplane/namespace_list_progressive.go:272-292 | any other list starts a session from nothing under the next revision, takes over enriched rows, cancels the cluster's session before and touches no other |
| EnrichmentEffects.PollMerges | internal/dataplane/namespace_list_progressive.go:772-781 | a poll gives listed names the enriched summary that is cached, keeps their details, and changes no other row |
| EnrichmentEffects.RunnerGoesOn | internal/dataplane/namespace_list_progressive.go:497-553 | the runner waits for quiet, runs the focused batch, then the sweep if it is on and has names, waiting first if it is to pause; a batch starts with all workers waiting and at least one allowed to work |
| EnrichmentEffects.StoppedSessionsDoNotSweep | internal/dataplane/namespace_list_progressive.go:515-537 | over any run, once a worker has left the focused batch or the session is over, the session never sweeps |
| EnrichmentEffects.SessionsAreNeverStuck | internal/dataplane/namespace_list_progressive.go:496-630 | in every reachable state a session is over or its runner or one of its workers can take a step |
| EnrichmentEffects.CancellationIsSeen | internal/dataplane/namespace_list_progressive.go:556-560 | the end of a session's context ends its runner's wait and lets every worker that has not begun leave |
| EnrichmentEffects.PollTouchesOneSession | internal/dataplane/namespace_list_progressive.go:746-781 | a poll changes the rows of its cluster's current session alone |
| EnrichmentCode.EnrichSession.UpdateBaseRows | internal/dataplane/namespace_list_progressive.go:348-362 | the loop replaces the rows by the new list's, with the old enrichment merged in |
| EnrichmentCode.RowsAreListed | internal/dataplane/namespace_list_progressive.go:240-247 | the list has the named items in their order, and a row for each name and no other |
| EnrichmentCode.LastRowCounts | internal/dataplane/namespace_list_progressive.go:240-247 | the row of a name is that of its last item |
| EnrichmentCode.EnrichSession.MergeExistingRowsInto | internal/dataplane/namespace_list_progressive.go:364-377 | likewise for the rows of a successor |
| EnrichmentCode.EnrichSession.PollRows | internal/dataplane/namespace_list_progressive.go:772-781 | a poll shows every listed name's row in order and keeps what it merged |
| EnrichmentCode.EnrichSession.CountDetail | internal/dataplane/namespace_list_progressive.go:573-582 | the section takes the session's step of the transition system for that worker |
| EnrichmentCode.EnrichSession.CountRelated | internal/dataplane/namespace_list_progressive.go:617-622 | likewise for the section that merges the projection |
| EnrichmentCode.EnrichSession.SetComplete | internal/dataplane/namespace_list_progressive.go:535-537 | likewise for the section in which the runner is done |
| EnrichmentCode.SectionIsStep | internal/dataplane/namespace_list_progressive.go:563-622 | a section of one session takes the coordinator's view through the step of the whole system and keeps it valid |
| EnrichmentCode.Coordinator.Begin | internal/dataplane/namespace_list_progressive.go:261-292 | the coordinator's view, with every session ever published, takes the step of the transition system and stays within its invariant |
| EnrichmentCode.Coordinator.Poll | internal/dataplane/namespace_list_progressive.go:746-813 | stale exactly when the revision is not the current one; otherwise all listed rows and counters with related <= detail <= total, where stage related means that detail is total and complete that both counters agree |
| ShellQuote.QuoteRoundTrip | internal/kube/container_command.go:139-141 | a quoted text is read as exactly one word equal to the text if and only if it has no NUL |
| ShellQuote.ScriptIsRead | internal/kube/container_command.go:131-137 | a login shell gets a script that is read as cd, the directory as one word, &&, and the trimmed command, or is the trimmed command if no directory is given |

## Left out

- bbolt, JSON encoding, reflection and files: buckets are maps with a key order, transactions are atomic and never fail, text survives storage unchanged, and a snapshot is its items and an optional time.
- Signal history, schema migration and `ListSnapshots` of the persistence: easy next to the three buckets.
- The scheduler's waiter numbers, the store's session revisions and Go's `int` sums such as offset + limit are unbounded integers; only the durations of the retry loop, the statistics and the snapshot revisions wrap.
- Fields of runners and waiters that only feed displays: source, times, statistics of runs, long-run notices.
- Fairness of preempting callers beyond their wake-up: a parked caller does not queue, so ordering claims are about queued waiters. A broadcast wakes all parked callers in one step.
- What a deduplicated caller of a snapshot fetch stores in its own cache: the leader's result is shared by the scheduler, the fetched value is not.
- What a call of the work function in the transition system returned: a leader's loop there makes at most the attempts it read and ends as such a loop may, while which answers lead to which end is stated of the loop alone.
- Classification of errors, panics of the work function, and live Kubernetes calls.
- The growth of the heap's backing array and object identity of tickets: a ticket is named by its caller, since a caller holds at most one at a time.
- Straight-line assignments of policy validation and overrides are written as expressions over values, since the source works on a clone; only their loops are methods.
- `NamespaceEnrichmentPolicy` fields that the enrichment workers read (which kinds are warmed) and the calls they make; each call's outcome is given with its step, and the policy read at a worker's step may differ from its neighbour's.
- Activity records, their removal after a time, and log text.
- Which favourites survive the favourite limit: the listing in which they are met is an input.
- The other operations of the custom workload action (free patches, resource lookup) and HTTP handling.
- Words of the shell language beyond quotes, blanks and '&' are not read: the reader gives up on them, and claims about a command's own tokens are relative to that.
- User interface, list hints, dashboards, signal detectors, launchers and port-forwarding: no property beyond single branches.
