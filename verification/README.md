# DeltaFlow: outbox, dispatch, leases and retries

DeltaFlow keeps a derived system in step with an application. A change of the application enqueues a *delta*
that names a projection identity; dispatch turns pending deltas into *sync jobs*; routines of a *sync worker*
lease jobs, read the latest state of the identity, write it to the target, and finalise, retry, kill or give
back each job. This project models that engine in Dafny and proves what it promises over every input and
every run.

`dafny verify dfyconfig.toml` checks the whole project.

## How it is laid out

- **Values and orders.** `Types`, `Ranks` (the sort orders: a nil-able instant, an instant, an id), `Names`
  (generated ids and the probing loop), `Dedup` (the framed dedup key), `Totals` (sums over maps).
- **Transitions.** `Jobs`, `Deltas` and `Dispatch` describe every store operation as a function of a table;
  `Claims`, `ClaimLoops` and `Releases` compare batch claims, loops of single claims and the calls that give
  jobs back.
- **Fields.** `JobFields`, `DeltaFields` and `DispatchFields` say the same in the fields of jobs and deltas alone,
  with the orders, instants and texts spelled out; the contracts of the stores are stated both ways.
- **Stores.** `JobStore`, `DeltaStore` and `DispatchStore` hold the in-memory stores as classes that update
  their maps in place; `Worker` holds the sync worker, `Sqlite` the claim side of the SQLite store, `Bench`
  the benchmark's store. Each method is proved against the functions above.
- **Runs.** `Runs` is the machine of arbitrary calls on the two stores, and `StoreRuns` performs its runs on the
  store classes. `Protocol` adds the routines with their claimed snapshots, the source and the target,
  interleaved at the granularity of one store call, one read of the source, one write of the target or one clock
  reading. `Attempts`, `Drain` and `Convergence` prove properties of all its runs; `WorkerRuns` proves that the
  worker's loops are such runs, `Progress` that an idle routine can use the backlog up from every state,
  `Delivery` that the target can then always catch up with the source, and `Overlap` and `Boundaries` give the
  runs and inputs at which a property ends.

What comes from outside is an input of the operation: the clock, whether a context is done, failures and
timeouts, the answers of projector and applier, the instants of heartbeats. In runs the clock is any
non-decreasing sequence of instants.

## What the code turned out to do

- Convergence needs its condition. If two routines are in flight on one customer, the target can end with an
  old document, nothing pending and no job left (`Overlap.OverlapIsReachable` gives the run). It holds when
  every read of the source is made while no other routine is in flight on that customer, which one routine at
  a time satisfies (`Convergence.QuiescentTargetIsSource`).
- The SQLite batch claim can claim one row over and over. It reads the clock anew for every row and truncates
  its instants to microseconds. A batch that starts with the row that ranks before every other live one is free
  of repetitions exactly if each later transaction comes, in whole microseconds, before the end of the first
  lease (`Sqlite.DistinctWithinFirstLease`; the worker's own claim loop has the same condition without the
  truncation, `ClaimLoops.DistinctWithinFirstLease`). No lock duration rules repetitions out by itself:
  a microsecond lease is claimed again a microsecond later (`Sqlite.MicrosecondLeaseIsReclaimed`). Where all
  transactions read one instant the condition is that the lease survives truncation
  (`Sqlite.DistinctIfLeaseSurvives`), which it does from a microsecond on.
- A routine whose claim loop outlasts its first lease can hold two snapshots of one job. A claim leaves the
  snapshots a routine holds up to date exactly if none of the jobs it claims again has recorded a failure since
  (`Attempts.ClaimKeepsSnapshots`); in runs whose claims satisfy this, `Attempts.AttemptsAreBounded` holds. A worker
  whose loop is not interrupted by another one's failure always does (`WorkerRuns.LoopIsRun`). Where a failure did
  come in between, failing the job from the older snapshot leaves it alive with all its attempts used up exactly if
  it had one attempt left (`Boundaries.StaleClaimOverruns`; `Boundaries.StaleSnapshotOverruns` gives the calls), and
  the next failure exceeds its maximum (`Boundaries.NextFailureExceeds`).
- Dedup keys identify (window, type, key hash) only below 2^32 bytes a segment; at 2^32 bytes the truncated
  length lets two identities collide (`Dedup.LongSegmentsCollide`).
- `Enqueue` draws its id before it hashes the projection key, so a key that does not marshal uses a number up,
  while a duplicate hands its number back.
- Routine ids are the worker's id with a suffix, so a worker named "a-r1" shares an id with a routine of a
  worker named "a" (`Worker.RoutineIDsIdentify`). Nothing fences two holders of one id apart.
- The backoff counts from the worker's clock reading, not from the instant the store records the failure. So
  recorded failures can come closer than the backoffs, by as much as the record of the first was delayed
  (`Attempts.FailuresKeepTheirDistance`). For every delay a run attains the bound
  (`Boundaries.DelayedRecordComesCloser`): after a delay longer than the backoff the next failure can be recorded at
  the very instant of the first.
- A job of a projection type the projector does not know fails at every attempt and dies. It stands for no customer,
  so convergence asks only that no customer's job has died (`Convergence.NoneDied`).

## Model

| member | source | states |
|---|---|---|
| Ranks.BeforeIsStrictTotalOrder | internal/store.go:538-558 | The nil-first comparator is a strict total order on listings with distinct ids. |
| Ranks.TextLessIsLexicographic | internal/store.go:981-983 | The order of ids is bytewise lexicographic: the first differing byte smaller, or a proper prefix. |
| Ranks.SortedIsUnique | internal/store.go:538-558 | A sorted listing is fixed by the set it lists, so it cannot depend on the iteration order of the map. |
| Ranks.TakenAreLeast | internal/store.go:672-675 | The first `limit` entries of a listing come before every entry left out. |
| Ranks.Sort | internal/store.go:973-985 | Sorting any arrangement of distinct entries gives the one ascending listing of their set. |
| Names.NameInjective | internal/store.go:355-363 | Generated ids are equal exactly when their numbers are. |
| Names.DecimalReadsBack | internal/store.go:357 | A generated number is in decimal digits without a leading zero and reads back as the number. |
| Names.Probe | internal/store.go:65-73 | The probing loop ends for every finite set of occupied ids, at the first free number above its start. |
| Names.FirstFreeDependsAbove | internal/dispatcher.go:54-71 | Staging sees the same next id whatever ids at or below the counter are occupied. |
| Dedup.FrameRoundTrip | pkg/connectors/delta_store_base.go:85-95 | The three length-prefixed segments are read back from the frame, each shorter than 2^32 bytes. |
| Dedup.DedupKeyIdentifies | pkg/connectors/delta_store_base.go:85-95 | Two identities share a dedup key exactly when window, type and key hash agree. |
| Dedup.LongSegmentsCollide | pkg/connectors/delta_store_base.go:85-95 | Two concrete identities with a segment of 2^32 bytes share a key. |
| Deltas.NextIsFresh | internal/store.go:65-73 | The next delta id is the counter plus one and is free. |
| Deltas.EnqueueKeeps | internal/store.go:53-109 | An enqueue keeps `dedup` equal to the index of a scan and the counter above every generated id, and returns the stored delta. |
| Deltas.BatchIsSingles | internal/store.go:111-163 | An accepted batch leaves the store that enqueuing its deltas one by one leaves, ids, index and counter included. |
| Deltas.SplitBatch | internal/store.go:111-163 | A batch split in two leaves the same store. |
| Deltas.BatchInsertsNewKeys | internal/store.go:139-159 | A batch adds exactly its dedup keys to the index and changes no stored delta. |
| Deltas.BatchCountsNewKeys | internal/store.go:139-159 | The counter rises by the number of distinct new dedup keys. |
| Deltas.RepeatedBatch | internal/store.go:139-159 | Repeating a batch at any later instant changes nothing. |
| DeltaStore.DeltaMemoryStore.constructor | internal/store.go:41-51 | An empty store with the configured batch size, or 1000. |
| DeltaStore.DeltaMemoryStore.Enqueue | internal/store.go:53-109 | Table and result, also by fields: a delta with a new key is stored and returned with the next id, all the caller gave kept, its instants and state filled in only where unset, its hash and dedup key those of its key and window; one whose key a stored delta has returns that one and changes nothing; an id or a key that does not marshal is an error that stores nothing. |
| DeltaFields.EnqueueByFields | internal/store.go:74-105 | What one enqueue stores and returns, in the fields of the deltas. |
| DeltaStore.DeltaMemoryStore.ValidateEnqueueBatch | internal/store.go:165-188 | Which batch is accepted and, for the first three errors, exactly when each is returned. |
| DeltaStore.DeltaMemoryStore.EnqueueBatch | internal/store.go:111-163 | A rejected batch changes nothing, and each of its six errors is returned exactly when the code's checks reach it first. An accepted one stores each delta whose key neither a stored delta nor an earlier one of the batch has, as given, numbered in order, keeps every stored delta, adds no other, and counts inserted and duplicates. |
| DeltaFields.PendingRankIsOccurrence | internal/store.go:283-293 | One pending delta is listed before another exactly if it occurred earlier, or at the same instant was created earlier, or both agree and its id is smaller. |
| DeltaFields.BatchByFields | internal/store.go:120-159 | What each front of a batch stores, in the fields of the deltas. |
| DeltaStore.DeltaMemoryStore.PendingDeltaIDs | internal/store.go:275-296 | All pending deltas of the sync, in the order of occurrence, creation and id. |
| DeltaStore.DeltaMemoryStore.Pull | internal/store.go:205-227 | Copies of min(limit, pending) pending deltas of the sync, ascending by occurrence, creation and id; every pending one left out comes after all of them. |
| DeltaStore.DeltaMemoryStore.MarkDispatched | internal/store.go:229-250 | Marks a known, not yet dispatched delta with the instant and changes nothing else. |
| Jobs.CreateKeeps | internal/store.go:345-390 | A create keeps ids fresh and `jobByDelta` equal to a scan, and takes the next number. |
| Jobs.LeaseAllAtOnce | internal/store.go:698-719 | Walking a listing leases every listed job once and no other. |
| Jobs.CopiesAreLeased | internal/store.go:698-719 | The copies returned are the listed jobs as leased, in order. |
| Claims.HeadLeavesQueue | internal/store.go:570-650 | Claiming the head leaves exactly the rest of the claim queue. |
| Claims.BatchIsSingles | internal/store.go:652-741 | At one instant a batch claim of k is k single claims: same list, same table. |
| Claims.BatchIsAscending | internal/store.go:652-741 | A batch has min(limit, claimable) jobs in strictly ascending rank; `JobFields.ClaimRankIsDueOrder` says what the rank orders by. |
| Claims.BatchIsLeased | internal/store.go:652-741 | Each was claimable and is now leased as returned. |
| Claims.BatchIsDistinct | internal/store.go:652-741 | No job is in a batch twice. |
| Claims.BatchTakesLeast | internal/store.go:652-741 | A job not taken is untouched, and if it was claimable every job taken ranks before it; in job fields in `JobFields.BatchByFields`. |
| JobFields.ClaimRankIsDueOrder | internal/store.go:973-985 | One job is claimed before another exactly if it is due earlier, or due at the same instant was created earlier, or both agree and its id is smaller. |
| JobFields.BatchByFields | internal/store.go:652-741 | The batch claim in job fields: min(limit, open) jobs, each open before and leased as returned, in due order; every open job left behind is due after all of them; no other job changes. |
| JobFields.ClaimByFields | internal/store.go:570-650 | The single claim in job fields: the open job due before every other open one, leased as returned, or nothing if none is open. |
| JobFields.LeaseRankIsLeaseOrder | internal/store.go:538-558 | One lease is listed before another exactly if it is undated and the other is not, or it ends earlier, or the ends agree and it was updated earlier, or both agree and its id is smaller. |
| JobFields.LeasesByFields | internal/store.go:523-568 | A lease query in job fields: copies of min(limit, selected) jobs in lease order; every selected one left out comes after all of them. |
| JobFields.SpaceOfUnicode | internal/store.go:469 | What is trimmed is, in its UTF-8 bytes, exactly the white space of Unicode. |
| JobFields.TrimCutsBothEnds | internal/store.go:469 | Trimming a reason cuts white space off both ends, all of it, and nothing else. |
| JobStore.ClaimableJobIDs | internal/store.go:966-987 | Scan and sort give the claim queue: exactly the open jobs of the sync, in due order. |
| JobStore.JobMemoryStore.constructor | internal/store.go:322-329 | An empty store. |
| JobStore.JobMemoryStore.Create | internal/store.go:331-390 | In place, the create transition with its errors; the stored job is the given one with the next id, its state, maximum (5) and instants filled in only where unset. |
| JobStore.JobMemoryStore.ClaimNext | internal/store.go:570-650 | Leases and returns the open job due before every other open one, or nothing if none is open; no other job changes. |
| JobStore.JobMemoryStore.ClaimNextBatch | internal/store.go:652-741 | The walking loop leases and returns min(limit, open) jobs in due order; every open one left behind is due after all of them; no other job changes. |
| JobStore.JobMemoryStore.UpdateOwned | internal/store.go:822-910 | Acts for the owner of a live lease and for nobody else. |
| JobStore.JobMemoryStore.RenewLease | internal/store.go:743-782 | Moves only the lease's end and the update time. |
| JobStore.JobMemoryStore.MarkSynced | internal/store.go:784-791 | Synced, unlocked, no attempt recorded, nothing else changed. |
| JobStore.JobMemoryStore.MarkRetrying | internal/store.go:793-801 | One attempt recorded, due at the given instant, unlocked. |
| JobStore.JobMemoryStore.RequeueClaimed | internal/store.go:803-810 | Retrying without an attempt, unlocked. |
| JobStore.JobMemoryStore.MarkDead | internal/store.go:812-820 | One attempt recorded, dead, unlocked. |
| JobStore.JobMemoryStore.OperateOnExpired | internal/store.go:465-521 | The two operator actions, field by field with their texts: a reason that is not all (Unicode) white space is required, and only a lapsed lease is acted on; a requeued job is due at the given instant. |
| JobStore.JobMemoryStore.ProcessingLeaseIDs | internal/store.go:523-558 | The listing of a lease query. |
| JobStore.JobMemoryStore.SelectProcessingLeases | internal/store.go:523-568 | Copies of its first `limit` leases. |
| JobStore.JobMemoryStore.ListActiveLeases | internal/store.go:407-422 | Copies of the first leases that end after now, in lease order, or the context's error. |
| JobStore.JobMemoryStore.ListExpiredProcessingLeases | internal/store.go:424-439 | Copies of the first leases that are over or undated, in lease order, or the context's error. |
| JobStore.JobMemoryStore.ListNearExpiryLeases | internal/store.go:441-463 | Copies of the first leases that end after now and within the window, in lease order; a negative window is an error. |
| LeaseQueries.ListedIsSelected | internal/store.go:523-568 | A job is listed exactly when it is processing, of the sync, and passes the filter. |
| LeaseQueries.LeasesPartitionProcessing | internal/store.go:407-439 | Active and expired leases share no job and together are the processing jobs. |
| LeaseQueries.NearExpiryIsPrefix | internal/store.go:441-463 | The near-expiry listing is the front of the active one under every limit. |
| LeaseQueries.OperatorActsOnExpired | internal/store.go:465-521 | An operator action whose reason is not all white space succeeds exactly on the jobs of the unlimited expired listing. |
| Dispatch.DispatchAllKeeps | internal/dispatcher.go:28-115 | A dispatch keeps both stores well formed. |
| Dispatch.DispatchAllMarks | internal/dispatcher.go:73-107 | It marks exactly the selected deltas. |
| Dispatch.DispatchAllCreates | internal/dispatcher.go:73-107 | No job and no mapping changes; exactly the selected deltas are mapped besides. |
| Dispatch.DispatchAllCopiesIdentity | internal/dispatcher.go:54-107 | Every new job is the fresh copy of one selected, unmapped delta. |
| Dispatch.QueueAfterDispatch | internal/dispatcher.go:28-115 | The pending queue loses exactly its first min(limit, n) entries; `DispatchFields.DispatchMoves` says in delta fields which those are. |
| Dispatch.DispatchComposes | internal/dispatcher.go:28-115 | Dispatching a, then b, at one instant is dispatching a + b: same stores, same jobs returned. |
| DispatchFields.DispatchMoves | internal/dispatcher.go:38-107 | min(limit, pending) pending deltas of the sync become dispatched at the instant, the oldest: every pending one left behind comes after all of them by occurrence, creation and id; every other delta is unchanged. |
| DispatchFields.DispatchMakes | internal/dispatcher.go:54-107 | The moved deltas without a job get one each, numbered from the counter on in the order of occurrence, with the identity of the delta, no attempts, at most five, due at once; stored jobs stay and there is no other new one. |
| DispatchStore.StagedIsOneByOne | internal/dispatcher.go:54-107 | Staging all ids before committing gives what dispatching one delta at a time gives. |
| DispatchStore.MemoryDispatchStore.Stage | internal/dispatcher.go:54-71 | The staged jobs, the next number, and the split of the selection into mapped and staged. |
| DispatchStore.MemoryDispatchStore.DispatchIDs | internal/dispatcher.go:54-107 | Stage, mark and commit refine the one-by-one dispatch. |
| DispatchStore.MemoryDispatchStore.DispatchPending | internal/dispatcher.go:28-115 | In place, the dispatch of the oldest pending deltas, also by fields: which deltas it moves and how they change, and which jobs it makes, in which order and with which fields; a done context changes nothing. |
| Runs.DoKeeps | internal/store.go:345-390 | Every call of either store keeps both indexes in agreement with a scan and the next ids free. |
| Runs.EveryChange | internal/store.go:570-741 | A stored job changes only by a claim when ready, by its owner while the lease lives, or by an operator once it lapsed. |
| Runs.OthersAreRefused | internal/store.go:956-1002 | While a lease lives, other workers, operators and all claims, its owner's included, are refused. |
| Runs.LeaseStep | internal/store.go:743-910 | While a lease lives, no single call but the owner's finalise or requeue takes the job from its owner, or changes more than the lease's end and the update time. |
| Runs.LeaseIsExclusive | internal/store.go:956-1002 | Over any run whose calls each come before the end of the lease then in force, renewals included, with no finalise or requeue by the owner, the job stays its owner's and changes in nothing but the lease's end and the update time. |
| Runs.OwnershipLasts | internal/store.go:743-910 | For every run there is a point up to which each call comes within the lease in force; there the run ends, or a call comes no earlier than the end of that lease, or, before that end, the owner finalises or requeues the job. Ownership ends at that end, or with that call. |
| Runs.RenewalIsInForce | internal/store.go:743-782 | A renewal puts the end of the lease where it asks, sooner or later than before. |
| Runs.ClaimsDoNotOverlap | internal/store.go:570-741 | Under a non-decreasing clock, whatever is called in between, refused finalises of the stale owner included, a second claim of a job comes no earlier than the end of the first owner's ownership. |
| Runs.RenewalsOnlyExtend | pkg/deltaflow/worker.go:309-347 | If no renewal asks for less than the lease has, ownership lasts at least as long as the lease it starts with, unless the owner finalises or requeues the job. |
| Runs.TerminalIsFrozen | internal/store.go:989-1002 | A synced or dead job never changes again. |
| Runs.JobsPersist | internal/store.go:822-910 | No run loses a job, changes its identity or lowers its attempt count. |
| Runs.ReachableStoresAgree | internal/store.go:345-390 | From empty stores, in every run: at most one outbox job a delta, one delta a dedup key, next ids free. |
| StoreRuns.PerformAll | internal/dispatcher.go:10-115 | The in-memory stores, bound by one dispatch store, perform any run of calls exactly as `Runs` says, so what is proved of runs holds of them. |
| Attempts.StepInv | pkg/deltaflow/worker.go:145-299 | Every event keeps the protocol's invariant: attempts, snapshots, backoff. |
| Attempts.AttemptsAreBounded | pkg/deltaflow/worker.go:263-274 | In every run whose claims take again no job that has recorded a failure since a snapshot the routine still holds: as many failures as the attempt count, at most the maximum, and exactly the maximum when dead. |
| Attempts.ClaimKeepsSnapshots | pkg/deltaflow/worker.go:239-257 | A claim leaves all snapshots its routine holds up to date if and only if no job it claims again has recorded a failure since. |
| Attempts.OwnerSnapshotIsCurrent | pkg/deltaflow/worker.go:263-274 | A routine that owns a job decides from its true attempt count. |
| Attempts.FailuresKeepTheirDistance | pkg/deltaflow/worker.go:386-397 | Failure k + 1 is decided at least 5, 35, 155 and 455 s after the first for k = 1 to 4 and 300 s more for each further k; at least 5, 30, 120 and then 300 s after the one before is decided, and no earlier than that one is recorded. It is recorded that much after the first is recorded, less the delay with which the first was recorded. |
| Attempts.FiveAttemptsTakeTime | pkg/deltaflow/worker.go:386-397 | A job with five attempts is not dead before 455 s after its first failure. |
| Protocol.FailureWaits | pkg/deltaflow/worker.go:263-274 | A job that fails for the n-th time with attempts left becomes available 5, 30, 120 and 300 s after the clock of the worker for n = 1, 2, 3 and n >= 4; without attempts left it is dead. |
| Drain.StepDrains | internal/dispatcher.go:73-107 | The backlog's measure rises only by enqueue and create, and falls whenever a delta is dispatched or a job finalised. |
| Drain.BacklogDrains | internal/store.go:784-820 | A run makes at most as many productive steps as its backlog measures. |
| Drain.DrainedIsQuiet | internal/store.go:784-820 | The measure is zero exactly when nothing is pending and every job is synced or dead. |
| Drain.EnoughStepsDrain | internal/store.go:784-820 | A run with that many productive steps has drained the backlog. |
| Progress.WorkProgresses | pkg/deltaflow/worker.go:64-102 | From every state that satisfies the invariant, where the measure is not zero, any idle routine can lower it on its own without adding work; no customer's job dies. |
| Progress.BacklogCanDrain | pkg/deltaflow/worker.go:64-102 | From every such state any idle routine can, on its own and adding nothing, leave no pending delta and every job synced or dead; no customer's job dies. |
| Convergence.ConvergingStep | pkg/deltaflow/worker.go:171-237 | Every event keeps: a customer out of sync is covered, and a routine in flight holds the truth or something covers it. |
| Convergence.DifferencesAreCovered | pkg/deltaflow/worker.go:171-237 | In every reachable state a customer whose target differs has a pending delta, a live job or a dead job. |
| Convergence.QuiescentTargetIsSource | playground/01-in-memory/custom_scenario.go:38-94 | With the backlog used up and no customer's job dead, the target equals the source, ghost deletes included. |
| Convergence.DrainedTargetIsSource | playground/01-in-memory/custom_scenario.go:38-94 | In every converging state, reachable or not, with the backlog used up and no customer's job dead, the target equals the source. |
| Delivery.SoloIsSerialised | pkg/deltaflow/worker.go:145-169 | A routine that runs while the others are idle is alone on every customer, so its runs satisfy the condition of convergence. |
| Delivery.TargetCanCatchUp | pkg/deltaflow/worker.go:64-102 | From every converging state in which no customer's job has died, some legal serialised run that adds nothing uses the backlog up and makes the target equal to the source. |
| Delivery.RunOnceConverges | pkg/deltaflow/worker.go:64-77 | The method `RunOnce` with all routines idle keeps what convergence rests on, and when its stores have nothing left and no customer's job died, its target is its source. |
| Overlap.OverlapLosesUpdate | pkg/deltaflow/worker.go:171-237 | From every state with two routines in flight on one customer and nothing else for it, a continuation ends with the old document and nothing to correct it. |
| Overlap.OverlapIsReachable | pkg/deltaflow/worker.go:171-237 | A concrete run from empty stores reaches that end with every call succeeding. |
| Boundaries.StaleClaimOverruns | pkg/deltaflow/worker.go:239-274 | For every table, claim and held snapshot: failing a job claimed again from that snapshot leaves it alive with all its attempts used up if and only if a failure was recorded since and one attempt was left. |
| Boundaries.StaleSnapshotOverruns | pkg/deltaflow/worker.go:239-274 | Concrete calls: a claim loop that outlasts its first lease, with another worker's failure in between, and a failure decided from the older of two snapshots leave a live job with all its attempts used up. |
| Boundaries.DelayedRecordComesCloser | pkg/deltaflow/worker.go:263-274 | For every delay of the first record, a legal run from empty stores whose second failure is decided and recorded at the earliest instant the bounds allow, 5 s less the delay after the first record. |
| Releases.ReleasesAreIndependent | pkg/deltaflow/worker.go:282-299 | Requeuing a batch treats each job by its own lease and touches no other job. |
| Releases.LiveLeasesAreGivenBack | pkg/connectors/sqlite/job_store.go:278-286 | Even in a batch with repetitions, a job whose lease is found alive ends retrying, unlocked, its attempts unchanged. |
| ClaimLoops.LoopIsBatch | pkg/deltaflow/worker.go:239-257 | At one instant a fault-free claim loop is the batch claim. |
| ClaimLoops.LoopChanges | pkg/deltaflow/worker.go:239-257 | A claim loop touches the jobs it returns, leases them to its worker, and touches no other. |
| ClaimLoops.LoopIsDistinct | pkg/deltaflow/worker.go:239-257 | A loop whose claims come before the end of its earlier leases claims no job twice. |
| ClaimLoops.DistinctWithinFirstLease | pkg/deltaflow/worker.go:239-257 | Under a non-decreasing clock, a loop that starts with the foremost live job claims no job twice exactly if all its claims come before the end of its first lease. |
| ClaimLoops.ForemostIsReclaimed | pkg/deltaflow/worker.go:239-257 | Every claim from the end of the foremost job's lease on finds that job taken once more by then. |
| ClaimLoops.ReleasedInTime | pkg/deltaflow/worker.go:239-257 | Releases of the claimed jobs before the end of every lease given find the leases alive. |
| ClaimLoops.FailedLoopLeavesNothing | pkg/deltaflow/worker.go:239-257 | A loop that fails and gives its claims back in time leaves no lease, no attempt and no other change. |
| Worker.PullFeedsTheRoutines | pkg/deltaflow/worker.go:358-377 | A configured pull size is the number pulled; otherwise it is concurrency times batch size, each at least one, so a cycle pulls at least a batch and at least one a routine. |
| Worker.RoutineIDsIdentify | pkg/deltaflow/worker.go:379-384 | Routine n > 0 is named by the worker's id, "-r" and n. Two routines share an id exactly when they are the same routine, or one worker's id spells out a routine of the other. |
| Worker.RenewalMovesOnlyTheLease | pkg/deltaflow/worker.go:309-347 | Heartbeats move only the lease's end and the update time. |
| Worker.PassedJobIsFinalised | pkg/deltaflow/worker.go:171-274 | A finalised job is synced exactly if its key names a customer, its projection and its applier succeeded and the heartbeats went well, ghost detected exactly if the source has no such customer; otherwise it is dead or, with attempts left, available 5, 30, 120 or 300 s after the clock. It is finalised once. |
| Worker.RoundDelivers | playground/01-in-memory/custom_scenario.go:28-94 | A round that writes puts the source's document of the customer into the target, or removes the customer if the source has none; any other round writes nothing. |
| Worker.FailedJobIsKept | pkg/deltaflow/worker.go:161-166 | A job whose finalise failed keeps everything but the extent of its lease. |
| Worker.BatchAccounting | pkg/deltaflow/worker.go:145-169 | Jobs before the stop are finalised once; later jobs keep their attempts and, released in time, lose their lock and carry the text of the error the drain stopped with. |
| Worker.AtMostOneStaysLeased | pkg/deltaflow/worker.go:145-169 | With releases in time, only the job whose finalise failed can stay leased. |
| Worker.DrainAccounts | pkg/deltaflow/worker.go:157-168 | For a batch that names each job once, what the drain loop does is the accounting of each job by itself, and the documents are those of the rounds before the stop. |
| Worker.CycleAccounting | pkg/deltaflow/worker.go:145-169 | If each job is claimed and released before the leases given end, against the table before the claim: each claimed job is finalised once or given back without an attempt, except the one whose finalise failed; jobs outside the batch are untouched; an error exactly if the drain stopped early. |
| Worker.TargetIndex.Apply | playground/01-in-memory/custom_scenario.go:72-94 | Upsert or delete of the key's customer; a bad key or a missing payload changes nothing. |
| Worker.SyncWorker.HeartbeatLease | pkg/deltaflow/worker.go:309-347 | Renews until it fails once. |
| Worker.SyncWorker.FailOrRetry | pkg/deltaflow/worker.go:263-274 | For the owner of a live lease, field by field: dead if the snapshot's count leaves no attempt, else retrying and available 5, 30, 120 or 300 s after the clock; for anybody else nothing. |
| Worker.SyncWorker.ProcessJob | pkg/deltaflow/worker.go:171-237 | The job and the target after one round, and the error. |
| Worker.SyncWorker.RequeueClaimedJobs | pkg/deltaflow/worker.go:282-299 | The loop gives each job back in turn, ignoring the answers. |
| Worker.SyncWorker.DrainBatch | pkg/deltaflow/worker.go:157-168 | Table, documents and error of the drain, job after job, for every batch of known jobs, repetitions included. |
| Worker.SyncWorker.ClaimBatch | pkg/deltaflow/worker.go:239-257 | One batch claim (in job fields, as `ClaimNextBatch`), or the loop of single claims with its compensation. |
| Worker.SyncWorker.ProcessBatch | pkg/deltaflow/worker.go:145-169 | Claim, then drain: table, documents and error, for either way of claiming and any claim result; a batched claim takes up to the configured batch size, or one. |
| Worker.SyncWorker.DispatchDeltas | pkg/deltaflow/worker.go:121-132 | min(limit, pending) of the pending deltas of the sync are moved, the oldest, and that many fewer are pending after, where the limit is the configured pull size or else concurrency times batch size, each at least one. |
| Worker.SyncWorker.RunOnce | pkg/deltaflow/worker.go:64-77 | Validate, dispatch, claim and drain for a worker with one routine: min(pull size or else batch size, pending) of the oldest pending deltas of the sync are moved; an invalid configuration or a failed dispatch changes nothing. |
| WorkerRuns.RoundRun | pkg/deltaflow/worker.go:171-237 | Processing one job is a run of the protocol. |
| WorkerRuns.DrainIsRun | pkg/deltaflow/worker.go:145-169 | Draining a batch, however it ends, is a run of the protocol that ends idle and finalises as many jobs as the drain gets past. |
| WorkerRuns.LoopIsRun | pkg/deltaflow/worker.go:244-256 | The single-claim fallback, however long it takes and however often it takes a job again, is a run of the protocol that claims one job at a time. |
| WorkerRuns.ClaimIsRun | pkg/deltaflow/worker.go:239-257 | Claiming, batched or one by one, is a run of the protocol; if it fails, the run gives back what was claimed and ends idle. |
| WorkerRuns.CycleIsRun | pkg/deltaflow/worker.go:145-169 | A whole cycle of a routine, with either way of claiming and whether its claim succeeds or fails, is a run of the protocol from idle to idle. |
| WorkerRuns.CycleDrains | pkg/deltaflow/worker.go:64-77 | With or without a dispatch, and whether the claim succeeds or fails, a cycle is a run that lowers the measure by at least the jobs it gets past, and by one more if its dispatch finds a pending delta. |
| WorkerRuns.RunOnceInStep | pkg/deltaflow/worker.go:64-77 | The method `RunOnce` itself, on stores a system holds: afterwards a run of the protocol leads to a system that holds them, the invariant kept and the measure lowered as stated. |
| WorkerRuns.CallsInterleave | pkg/deltaflow/worker.go:79-101 | The next calls of any number of routines, in whatever order they reach the stores, are a run of the protocol: no routine keeps another from making its call. |
| Sqlite.LeaseSurvivesTruncation | pkg/connectors/sqlite/ids.go:18-20 | Exactly which leases survive truncation to microseconds. |
| Sqlite.MicrosRoundDown | pkg/connectors/sqlite/ids.go:18-20 | Truncation gives the last whole microsecond that is not later. |
| Sqlite.SameRowAgain | pkg/connectors/sqlite/job_store.go:253-276 | If the lease is over when it is given, every iteration claims the same row. |
| Sqlite.DistinctIfLeaseSurvives | pkg/connectors/sqlite/job_store.go:253-276 | Where all transactions read one instant, the batch is free of repetitions exactly if the lease survives truncation. |
| Sqlite.DistinctWithinFirstLease | pkg/connectors/sqlite/job_store.go:253-276 | Under a non-decreasing clock, a batch that starts with the foremost live row claims no row twice exactly if each later transaction comes, in whole microseconds, before the end of the first lease. |
| Sqlite.MicrosecondLeaseIsReclaimed | pkg/connectors/sqlite/job_store.go:253-276 | A concrete input: a microsecond lease and transactions at 0 and 1 us claim one row twice. |
| Sqlite.LoopIsMemoryBatch | pkg/connectors/sqlite/job_store.go:253-276 | From a microsecond on, at one instant, the loop is the in-memory batch claim on the truncated clock. |
| Sqlite.FailedBatchLeavesNothing | pkg/connectors/sqlite/job_store.go:263-286 | After a failed transaction, if every claimed row is requeued before the leases given end, no claimed row is leased, attempts are unchanged, other rows untouched. |
| Sqlite.FirstRowIsHead | pkg/connectors/sqlite/job_store.go:204-213 | The ordered select with limit one selects the head of the claim queue. |
| Sqlite.SqliteJobStore.SelectCandidate | pkg/connectors/sqlite/job_store.go:203-223 | The id of the open row due before every other open one, or none if none is open. |
| Sqlite.SqliteJobStore.ClaimCandidate | pkg/connectors/sqlite/job_store.go:288-314 | The conditional update and the rows it affects. |
| Sqlite.SqliteJobStore.ClaimNext | pkg/connectors/sqlite/job_store.go:185-251 | One transaction is one claim, by fields as in memory on the truncated clock; if it fails the rows are as before. |
| Sqlite.SqliteJobStore.RequeueClaimed | pkg/connectors/sqlite/job_store.go:372-387 | The guarded update, and which error it returns otherwise. |
| Sqlite.SqliteJobStore.RequeueClaimedBatch | pkg/connectors/sqlite/job_store.go:278-286 | The compensation loop gives each row back in turn. |
| Sqlite.SqliteJobStore.ClaimNextBatch | pkg/connectors/sqlite/job_store.go:253-276 | The claim loop with its compensation. |
| Bench.WalkedIsPrefix | playground/01-in-memory/benchmark.go:387-391 | If nothing behind the cursor can be claimed, what the cursor takes is a prefix of the sorted scan. |
| Bench.BatchOutcome | playground/01-in-memory/benchmark.go:350-421 | From its two phases: a full batch, an unchanged counter, and agreement with the sorted scan. |
| Bench.FinishOne | playground/01-in-memory/benchmark.go:446-471 | A job that becomes terminal is counted once. |
| Bench.AllFinished | playground/01-in-memory/benchmark.go:166-177 | The count reaches the number of jobs exactly when every job is terminal. |
| Bench.BenchJobStore.constructor | playground/01-in-memory/benchmark.go:290-318 | The seeds, listed by due time, creation and id, cursor and counters at zero. |
| Bench.BenchJobStore.ClaimLocked | playground/01-in-memory/benchmark.go:367-385 | Leases the job if it is of the sync and claimable. |
| Bench.BenchJobStore.WalkCursor | playground/01-in-memory/benchmark.go:387-391 | The cursor takes exactly the claimable jobs it passes, in order. |
| Bench.BenchJobStore.ScanRest | playground/01-in-memory/benchmark.go:394-418 | The fallback fills the batch to min(limit, claimable at entry). |
| Bench.BenchJobStore.ClaimNextBatch | playground/01-in-memory/benchmark.go:350-421 | Exactly min(limit, open at entry) distinct jobs, each open and leased as returned; jobs from the cursor on as seeded; the sorted-scan prefix when nothing behind the cursor is claimable. |
| Bench.BenchJobStore.UpdateOwned | playground/01-in-memory/benchmark.go:446-558 | The four mutators with two clock readings; the counter stays the number of terminal jobs. |
| Bench.BenchJobStore.RenewLease | playground/01-in-memory/benchmark.go:423-444 | Renewal with three clock readings. |
| Bench.BenchJobStore.Statistics | playground/01-in-memory/benchmark.go:566-585 | The counts by state; synced + dead is the counter. |
| Bench.DrainWorker | playground/01-in-memory/benchmark.go:166-177 | Success means every job is synced or dead; otherwise a cycle failed or some job is not. |

## Left out

- Postgres, its transactions and `SKIP LOCKED`; SQLite beyond the claim loop (create, lease queries, the mark methods, dispatch), whose SQL repeats the transitions proved for memory.
- The SQLite singleton worker lock: a lease with fewer cases.
- HTTP and Redis appliers, CLI, YAML configuration, runtime registry, host helpers, logging and telemetry.
- The `Get` methods and the cloning of values handed out: the maps hold values, so aliasing between a returned job and the stored one is not expressed. Metadata is one opaque value.
- Integer widths: ids, attempt counts and instants are unbounded, `time.Time.Add` does not saturate.
- SHA-256 and JSON: the dedup hash is a free constructor over the hashed bytes, `keyHash` is any function from projection keys that may fail to marshal, and a document is its payload text.
- Strings other than the declared states: a job or delta in a state the code does not know is not modelled. Strings are sequences of bytes, in UTF-8 where the code asks for white space.
- The text of storage errors; the errors of the stores keep their own text. A context that is done is one error with
  one text, whether it was cancelled or its deadline passed.
- Two live routines under one id: the protocol keys routines by id, as the store keys leases.
- Worker.SyncWorker.RunOnce: a class method of a worker with one routine. Goroutines, channels and tickers are not modelled; a worker with several routines is the interleaved events of `Protocol`, whose results hold for any number of them, and `WorkerRuns` refines whole cycles only while no other routine acts.
- Direct `MarkDispatched` calls and directly created outbox jobs in protocol runs: the first creates no job for its delta, and the second keeps whatever state, locks and attempts the caller set. `Runs` covers both.
- Protocol claims: a routine claims again no job that has recorded a failure since a snapshot it still holds. A batch claim by an idle routine always satisfies this, and so does a claim loop during which no other worker fails a job the loop holds. `Attempts.ClaimKeepsSnapshots` and `Boundaries.StaleClaimOverruns` say what happens otherwise.
- Convergence with re-enqueue inside a used dedup window: such an enqueue is dropped by design, so source changes enqueue without a window.
- Bench.BenchJobStore.constructor: asks for seeds with distinct ids, pending or retrying, as the benchmark builds them; with a seed already processing, a finalise could change a job the cursor has not reached.
- Bench.DrainWorker: a cycle is any sequence of store calls, not those of a particular worker.
- Bench.BenchJobStore.UpdateOwned: covers the four mark methods by one method with the change as its argument.
