# A verified model of lockfree-stm

lockfree-stm (`lstm`) is a software transactional memory for C++. A transaction takes the global
clock as its version, reads each variable's storage and then its version word, buffers its writes,
and commits by locking the variables it writes, validating the others it read, storing, bumping the
clock and publishing the new version. Storages replaced by a commit are freed after a grace period.
This project models that design in Dafny and proves what it promises.

* **The protocol** (`CommitLog`, `SerialOrder`, `Stm`, `StmInvariant`, `StmProof`, `StmActor`,
  `StmStep`, `StmTheorems`, `StmAlone`, `StmSolo`, `StmAccount`, `StmOutcome`, `StmExample`): a state machine in which one action is one
  atomic load, store, compare-and-swap or fetch-add, for any number of threads and variables. Version numbers
  are not a serialization order here, because the clock is bumped after validation and after the
  writes; the order that works places a writer at the step at which its locks were complete and a
  transaction that wrote nothing at its `get_clock`. Those steps are recorded as bookkeeping.
  `VersionOrder` says exactly when the order of versions is serial after all. `StmAccount` tells what
  an attempt has read and written from its actions and the memory they met alone, and proves that
  the sets and records the theorems speak of are exactly that.
* **Deferred reclamation** (`Reclaim`, `ReclaimInvariant`, `ReclaimPlaces`, `ReclaimGrace`,
  `ReclaimFree`, `ReclaimTheorems`, `ReclaimLoops`, `ReclaimScan`, `ReclaimExample`): on top of the protocol, where every heap storage is, the
  queues of replaced storages, and the scan of the nodes that lets them be freed.
* **The containers behind it**, in the code's own imperative form: the ring buffer of callbacks
  (`QuiescenceBuffer`), the reclaim loops over it (`ThreadData`), the growing vector (`PodVector`),
  the filtered write set (`WriteSet`), and a transaction's reads, writes and commit loops over its
  own sets (`Transaction`). `CommitSchedule` and `ReclaimLoops` show that the commit loops and the
  reclaim loops are schedules of the two state machines above.
* **The locks** (`FastRwMutex`, `NodeList`; the bit operations in `Bits`): state machines for the one-word reader/writer lock and
  for the distributed lock that guards the list of nodes.
* **The red-black tree** (`RbModel`, `RbRepair`, `RbTree`): nodes on the heap with parent pointers,
  all five insertion and six deletion cases, proved against a tree seen from a hole.

How to read it: `StmTheorems`, `ReclaimTheorems`, `StmSolo` and the last part of every other file
hold the main results. A run is a sequence of states in which each is obtained from the one before
by an enabled action; theorems hold at every state of every run. `StmExample`, `ReclaimExample` and the
last lemma about runs of each lock give runs that exist, so that no theorem about runs is empty.

Where the code and its documentation differ, the code is followed: a transaction with an empty
write set returns epoch 0 from `try_commit`, whatever its version is.

## Model

| member | source | states |
|---|---|---|
| StmTheorems.Serializability | include/lstm/detail/commit_algorithm.hpp:58-133 | At every point of every run the committed transactions, sorted by the step their locks were complete (writers) or they read the clock (the others), are a serial execution: every tracked read returns what it returned, final memory agrees, real-time order is respected |
| StmAccount.AccountAgrees | include/lstm/detail/transaction_base.hpp:20-108 | In every run, at every state, what a thread has read, has to validate, has pending and is in the middle of is exactly what its own actions and the memory they met say: the tracked reads that passed, on either path, and the last value given to each variable |
| StmAccount.TrackedReadIsSeen | include/lstm/detail/transaction_base.hpp:20-49 | A read opened as tracked that passes its version test, at once or after reloads on the slow path, is from then on one of the reads that the serial order answers for, with the storage loaded last, and its variable is validated unless it is written as well |
| StmAccount.CommitRecord | include/lstm/detail/commit_algorithm.hpp:109-125 | A commit enters the history with exactly the tracked reads and the last writes its actions made, at the step its locks were complete |
| StmAccount.QuietRecord | include/lstm/detail/commit_algorithm.hpp:141-142 | A transaction that wrote nothing enters the history with all its reads, tracked or not |
| StmAccount.AttemptStarts | include/lstm/read_write.hpp:20-22 | From its beginning to its end an attempt runs at the clock it read first and in the mode it was begun in |
| SerialOrder.SortIsSerial | include/lstm/detail/commit_algorithm.hpp:109-125 | Any set of commits whose reads are right at their version and whose conflicting writes agree with the time stamps is serializable in time stamp order |
| StmExample.VersionsAreNotTheOrder | include/lstm/detail/commit_algorithm.hpp:109-125 | A run of two threads after which the commit with the later version read a value the earlier version had already replaced, so that in every serial order the later version comes first |
| VersionOrder.VersionOrderIff | include/lstm/detail/commit_algorithm.hpp:109-125 | At every point of every run: the commits in the order of their versions are a serial execution iff no variable a commit read is written by a commit between its start version and its place, unless the last such write put the value read back |
| VersionOrder.HeapVersionOrder | include/lstm/detail/transaction_base.hpp:56-79 | For heap variables nothing can be put back, so iff no variable read is written in between |
| VersionOrder.AllocatedVersionOrderIff | include/lstm/detail/transaction_base.hpp:56-108 | For heap and atomic variables together: the former must not be written in between, the latter may be put back |
| VersionOrder.BumpKeepsVersionOrder | include/lstm/detail/commit_algorithm.hpp:115-122 | A bump keeps the order of versions serial if, and over heap variables only if, every variable read would still pass the version test at that moment |
| VersionOrder.QuietFits | include/lstm/detail/commit_algorithm.hpp:141-142 | A transaction that wrote nothing always fits in right behind the version it started from |
| StmTheorems.Opacity | include/lstm/detail/transaction_base.hpp:20-49 | Every successful read of memory of an attempt, tracked or not, even if the attempt aborts later, is the value after exactly `version` commits |
| StmTheorems.LiveAttemptIsSerial | include/lstm/detail/transaction_base.hpp:20-49 | At every point of every run the committed transactions together with any attempt still under way, even one that fails later, are one serial execution in which the attempt stands where it read the clock |
| StmTheorems.MemoryIsTheLog | include/lstm/detail/transaction_domain.hpp:23-37 | A word is unlocked iff nobody owns the variable; an unlocked variable has the version and value of its last commit, at most the clock; a locked word exceeds every version in use |
| StmTheorems.StoredMeansCommitted | include/lstm/detail/commit_algorithm.hpp:109-125 | An attempt that has stored one pending write can only go on to succeed |
| StmTheorems.CommitInstallsAll | include/lstm/detail/commit_algorithm.hpp:96-125 | A finished commit has installed its whole write set under one version, above its own start version |
| StmAccount.LastWriteWins | include/lstm/detail/transaction_base.hpp:51-108 | The value an attempt gives a variable, by a first write on either path or an atomic write over a pending one, is the one pending until it gives another, to the end of the commit |
| StmAccount.PendingWasGiven | include/lstm/detail/transaction_base.hpp:51-108 | Whatever is pending was given by an action of the same attempt |
| StmAccount.CommitInstallsLastWrites | include/lstm/detail/commit_algorithm.hpp:96-125 | A finished commit has installed, under one version, the last value its own actions gave each variable, and returns the clock it bumped |
| StmTheorems.NothingLeftLocked | include/lstm/detail/commit_algorithm.hpp:51-94 | A thread that failed, succeeded or is idle owns no variable, whichever check failed |
| StmTheorems.FailedCommitRestores | include/lstm/detail/commit_algorithm.hpp:46-94 | A lock taken by a commit that then fails is released with the version word and the value exactly as they were before it was taken, whatever other threads did in between |
| StmTheorems.BumpRaises | include/lstm/detail/commit_algorithm.hpp:117-122 | The version a commit is about to publish is strictly above the one it locked in every variable it writes, and is the new clock |
| StmTheorems.ClockAndVersions | include/lstm/detail/transaction_domain.hpp:23-37 | Transaction versions and announced epochs never exceed the clock, the clock stays below the lock bit, and the value for "not announced" is above every epoch and shown exactly outside an attempt |
| StmSolo.UndisturbedGoesOn | include/lstm/detail/commit_algorithm.hpp:58-133 | In every run, an attempt that finds no lock of another thread and no commit since its start whenever it takes a step of its own is never turned back by a read, a write, a lock or a validation, compare-and-swap included |
| StmSolo.UndisturbedSucceeds | include/lstm/detail/commit_algorithm.hpp:127-145 | So when such an attempt ends, it has succeeded |
| StmSolo.SoloNeverFails | include/lstm/detail/commit_algorithm.hpp:58-133 | The one step behind it: no action of an undisturbed attempt other than an exception turns it back, from any reachable state |
| StmSolo.SoloCommits | include/lstm/detail/commit_algorithm.hpp:127-145 | Such a commit finishes by its own steps alone and puts exactly its write set into the log |
| StmAlone.AloneCommits | include/lstm/detail/commit_algorithm.hpp:68-145 | Whatever locks and versions others left behind, a commit that only its own thread moves, in any order of its sets, succeeds iff every variable written and every other variable read passes the version test when it starts; then memory and clock are exactly the old ones with all writes under one new version, otherwise exactly the old ones |
| StmAlone.AloneEnds | include/lstm/detail/commit_algorithm.hpp:68-145 | From anywhere in it, a commit ends by its own steps alone, in success or failure |
| StmOutcome.TurnedBackIff | include/lstm/detail/transaction_base.hpp:20-108 | In every run an attempt is turned back at a step iff its function throws, the version test of the variable at hand fails, or the word has changed between the load and the swap of a lock |
| StmOutcome.TurnedBackTo | include/lstm/detail/commit_algorithm.hpp:68-94 | A fast read that fails is made again on the slow path, with the same variable and tracking; a commit that fails undoes exactly the locks it owns; anything else has failed |
| StmOutcome.OperationReturns | include/lstm/detail/transaction_base.hpp:20-108 | An operation that is not turned back returns to the function; the slow path loads again |
| StmOutcome.OperationsOpen | include/lstm/detail/transaction_base.hpp:20-108 | Between two operations exactly the reads, writes and commits that fit what is pending are open to the function |
| StmOutcome.AttemptEnds | include/lstm/detail/atomic_base.hpp:32-98 | A thread is out of its transaction exactly after leaving with success or giving up, and may try again exactly after leaving with failure; either way it announces nothing and keeps no sets |
| StmOutcome.NeverStuck | include/lstm/detail/commit_algorithm.hpp:58-145 | In every state of every run, while the clock has room, every thread can take a step |
| CommitSchedule.CommitAsScheduled | include/lstm/detail/commit_algorithm.hpp:58-145 | The loops of `Transaction.TryCommit` and every such schedule of the protocol agree: same outcome, same sync epoch, and the objects end up holding what the final state holds |
| StmStep.InvKept | include/lstm/detail/commit_algorithm.hpp:26-125 | Every action of every thread keeps the protocol invariant |
| StmActor.LoadIsSound | include/lstm/detail/transaction_base.hpp:23-28 | A storage loaded before the version test is the snapshot's value unless the variable is, or is bound to be, overtaken |
| StmActor.ValidMeansNewest | include/lstm/detail/transaction_base.hpp:207-211 | A word that passes the version test belongs to an unlocked variable whose newest value is the one at the transaction's version |
| ReclaimTheorems.GracePeriod | include/lstm/thread_data.hpp:127-145 | When a callback frees a storage, and ever after, no attempt of any thread holds it from a read |
| ReclaimTheorems.FreedAtMostOnce | include/lstm/thread_data.hpp:91-113 | No storage is freed twice in a run |
| ReclaimTheorems.StalledIsHarmless | include/lstm/read_write.hpp:20-22 | However long a thread slept between reading the clock and announcing it, a read that succeeds returns a storage that is current, so not freed |
| ReclaimTheorems.Conservation | include/lstm/detail/transaction_base.hpp:56-79 | Every storage allocated is in exactly one place: one write set, one variable, one commit's callbacks, one queue, one thread's fail callbacks, or freed |
| ReclaimTheorems.CommitQueuesReplaced | include/lstm/detail/atomic_base.hpp:75-98 | A success queues, under its sync epoch, exactly the values just before it of the heap variables it wrote, although some were loaded after the version test |
| ReclaimTheorems.AbortFreesOwn | include/lstm/detail/atomic_base.hpp:33-56 | A failure frees exactly the storages the attempt allocated, none of which was ever a variable's value |
| ReclaimTheorems.ReleaseFinishes | include/lstm/thread_data.hpp:115-136 | The release loop always ends, frees every storage of the chunks it runs and no chunk past the bound; draining leaves the queue empty |
| ReclaimExample.StorageIsFreed | include/lstm/thread_data.hpp:127-145 | There is a run of two threads in which a commit replaces a storage that a reader still holds, the scan waits for the reader, and the callback then frees the storage |
| ReclaimFree.WaitedPasses | include/lstm/detail/thread_synchronization.hpp:81-97 | A node that had to be waited for holds nothing queued once the wait is over, so leaving it out of the scan's result is sound |
| ReclaimScan.PollIff | include/lstm/detail/thread_synchronization.hpp:72-79 | At every poll of every run the wait ends iff the node shows an epoch above the goal, and the scan goes on with the same nodes left and the same result |
| ReclaimScan.LookIff | include/lstm/detail/thread_synchronization.hpp:81-97 | A look begins a wait iff the node shows an epoch up to the goal; otherwise the epoch takes part in the result |
| ReclaimScan.WaitsUntilNewer | include/lstm/detail/thread_synchronization.hpp:72-79 | A wait lasts from the look that began it to the first poll that finds a newer epoch, whatever all threads do meanwhile |
| ReclaimScan.ScanLooksAtAll | include/lstm/detail/thread_synchronization.hpp:81-97 | A finished scan has looked at the node of every thread, at each exactly once |
| ReclaimScan.ReclaimCompletes | include/lstm/thread_data.hpp:115-145 | In every run, while every node shows an epoch above the goal, a reclaiming thread gets through by its own moves alone: it finds the least epoch shown and frees exactly the chunks this allows, or all to drain |
| ReclaimScan.FailureCompletes | include/lstm/detail/atomic_base.hpp:44-48 | The fail callbacks run to their end by moves of their own thread, free all the attempt had allocated, and then the next attempt can begin |
| ReclaimScan.NobodyIsStuck | include/lstm/thread_data.hpp:91-145 | While the clock has room every thread can always move, in its transaction, in its scan or running callbacks |
| ReclaimFree.AnnouncedPasses | include/lstm/detail/thread_synchronization.hpp:81-97 | A thread whose node shows an epoch above the goal and not below the result holds nothing from the chunks the scan covers |
| ReclaimFree.ScanDonePhase | include/lstm/detail/thread_synchronization.hpp:177-191 | When every node has been passed, nobody holds anything from the first chunk or from any chunk below the result; when draining, from any chunk |
| ReclaimGrace.HolderIsOld | include/lstm/detail/thread_synchronization.hpp:145-152 | Whoever still holds a storage replaced by the commit at clock e began at e or before |
| ReclaimPlaces.TxPlaces | include/lstm/detail/transaction_base.hpp:241-266 | Every step of every transaction keeps each storage in exactly one place |
| ReclaimFree.WorldKept | include/lstm/thread_data.hpp:115-145 | Every move of transactions and reclaiming threads keeps the whole invariant |
| ReclaimLoops.ScanFindsBound | include/lstm/detail/thread_synchronization.hpp:81-97 | In every run, whatever other threads do meanwhile, the bound handed to the release loop is what the loop of `wait_min_epoch` computes from the epochs the scan has seen, for the oldest queued epoch or, to drain, the newest |
| Quiescence.QuiescenceBuffer.EmplaceBack | include/lstm/detail/quiescence_buffer.hpp:131-136 | Appends to the working list and changes nothing else, across wrap-around and growth; the capacity doubles exactly when the next push would fill the ring |
| Quiescence.QuiescenceBuffer.UncheckedEmplaceBack | include/lstm/detail/quiescence_buffer.hpp:138-145 | Where no allocation is due, appends to the working list in the same buffer |
| Quiescence.QuiescenceBuffer.ReserveMore | include/lstm/detail/quiescence_buffer.hpp:68-88 | A full ring, wherever it starts, is unrolled into twice the capacity with every slot in its place in the queue |
| Quiescence.QuiescenceBuffer.ClearWorkingEpoch | include/lstm/detail/quiescence_buffer.hpp:124-128 | Drops the working list and keeps the queue |
| Quiescence.QuiescenceBuffer.FinalizeEpoch | include/lstm/detail/quiescence_buffer.hpp:150-168 | Moves a nonempty working list to the end of the queue under its epoch; true iff something was queued and the slots in use reach the limit |
| Quiescence.QuiescenceBuffer.DoFirstEpochCallbacks | include/lstm/detail/quiescence_buffer.hpp:170-186 | Runs the oldest chunk's callbacks once each, in order, and removes exactly that chunk |
| Quiescence.QuiescenceBuffer.BackEpoch | include/lstm/detail/quiescence_buffer.hpp:188-193 | Finds the epoch of the newest chunk through the size stored behind it |
| Quiescence.QuiescenceBuffer.FrontEpoch | include/lstm/detail/quiescence_buffer.hpp:195-199 | Is the epoch of the oldest chunk |
| Quiescence.QuiescenceBuffer.Empty | include/lstm/detail/quiescence_buffer.hpp:117 | The ring is empty iff nothing is queued and nothing is in the working list |
| Quiescence.FinalizeDescribes | include/lstm/detail/quiescence_buffer.hpp:157-163 | Stamping the working header and writing a new one behind it turns the working list into the last chunk |
| Quiescence.RingUnrolled | include/lstm/detail/quiescence_buffer.hpp:75-77 | The two copied pieces, one after the other, are the ring from `ring_begin` on |
| Quiescence.QuiescenceBuffer.WrapIsMask | include/lstm/detail/quiescence_buffer.hpp:63 | Wrapping an index, negative differences included, is masking it, as an unsigned 64-bit word, by one less than the capacity |
| Bits.MaskIsRemainder | include/lstm/detail/quiescence_buffer.hpp:63 | For a power of two the mask is the remainder |
| Quiescence.ModIsRemainder | include/lstm/detail/quiescence_buffer.hpp:63 | The wrap of the model is the remainder by the capacity, for negative differences as well |
| ThreadData.ThreadData.ReclaimAll | include/lstm/thread_data.hpp:115-125 | Waits once, for the newest epoch queued, and only after that runs every queued callback once, in order, and terminates with an empty queue |
| ThreadData.ThreadData.ReclaimAllPossible | include/lstm/thread_data.hpp:127-136 | Runs the first chunk and then exactly as many as lie below the bound, in order, and keeps the rest |
| ThreadData.ReleasesExactly | include/lstm/thread_data.hpp:132-135 | With epochs in order a chunk is run iff it is the first or its epoch is below the bound |
| ThreadData.ThreadData.ReclaimSlowPath | include/lstm/thread_data.hpp:138-145 | Waits for the oldest epoch queued and only after that runs the chunks the result allows |
| ThreadData.WaitMinEpoch | include/lstm/detail/thread_synchronization.hpp:81-97 | Returns the least epoch above the goal that the nodes show, or the value for "not announced" |
| ThreadData.MinAboveIsLeast | include/lstm/detail/thread_synchronization.hpp:81-97 | No node seen above the goal shows less than the result |
| ThreadData.ThreadData.Reclaim | include/lstm/thread_data.hpp:234-243 | Queues the commit's callbacks and, only when enough are waiting, waits for the oldest epoch and then reclaims up to the result |
| ThreadData.ThreadData.Fail | include/lstm/thread_data.hpp:99-113 | Runs the fail callbacks last registered first and forgets the success callbacks of the attempt |
| FastRwMutex.Exclusion | include/lstm/detail/fast_rw_mutex.hpp:93-119 | A writer past `lock` excludes every reader and every other writer |
| FastRwMutex.WordCounts | include/lstm/detail/fast_rw_mutex.hpp:93-119 | The low bits count readers inside plus readers backing out, the top bit tells whether somebody claims the lock, and both unlock assertions hold |
| FastRwMutex.AllOut | include/lstm/detail/fast_rw_mutex.hpp:90 | The word is 0 when everybody is out |
| FastRwMutex.WordStepsAreSteps | include/lstm/detail/fast_rw_mutex.hpp:14-119 | At every step of every run the masks, the set and cleared bit and the wrapping sums of the 64-bit word do what the model does with numbers |
| FastRwMutex.ClaimStopsReaders | include/lstm/detail/fast_rw_mutex.hpp:32-72 | Once a writer has claimed the lock no further thread becomes a reader |
| FastRwMutex.BecomesReaderIff | include/lstm/detail/fast_rw_mutex.hpp:32-97 | In every run a step makes a thread a reader iff nobody claims the lock and it is the addition of `lock_shared` or the exchange of its slow path on a word that has not changed since the thread loaded it |
| FastRwMutex.ReaderGetsIn | include/lstm/detail/fast_rw_mutex.hpp:39-46 | Once nobody claims the lock a reader that had backed out gets in with two steps, counted once more |
| FastRwMutex.ReaderComesBack | include/lstm/detail/fast_rw_mutex.hpp:32-47 | There is a run in which a reader finds a writer inside, backs out, and gets in afterwards |
| FastRwMutex.BeginsClaimIff | include/lstm/detail/fast_rw_mutex.hpp:55-111 | A step makes a thread claim the lock iff nobody claims it and it is the exchange of `lock` with nobody counted, or that of its slow path on a word that has not changed since the thread loaded it |
| FastRwMutex.BecomesWriterIff | include/lstm/detail/fast_rw_mutex.hpp:74-81 | A claimant is in, by its own step, iff the word it has seen last counts no reader, and otherwise goes on waiting |
| FastRwMutex.WriterClaims | include/lstm/detail/fast_rw_mutex.hpp:55-72 | Once nobody claims the lock a writer that had to wait claims it with two steps and knows how many readers are inside |
| FastRwMutex.SeenIsLoaded | include/lstm/detail/fast_rw_mutex.hpp:32-81 | The word a thread acts on is what it loaded, or found at its exchange, in its own last step |
| FastRwMutex.NeverBlocked | include/lstm/detail/fast_rw_mutex.hpp:32-119 | Every thread always has its next step |
| FastRwMutex.StaysInRole | include/lstm/detail/fast_rw_mutex.hpp:93-119 | From `lock_shared` to `unlock_shared` a thread is there as a reader, from `lock` to `unlock` as a writer, and out from either unlock on |
| FastRwMutex.WriterGetsIn | include/lstm/detail/fast_rw_mutex.hpp:74-81 | A waiting writer that looks twice after the last reader is off the count is in |
| FastRwMutex.WriterWaits | include/lstm/detail/fast_rw_mutex.hpp:48-81 | There is a run in which a writer has claimed the lock and waits for a reader that is inside |
| NodeList.ScanSeesStableList | include/lstm/detail/thread_synchronization.hpp:177-191 | While a thread scans, the list does not change |
| NodeList.ScanVisitsAll | include/lstm/detail/thread_synchronization.hpp:81-97 | A scan that ends has looked at every node of the list, at each in exactly one step |
| NodeList.LoopWaitsForScanner | include/lstm/detail/thread_synchronization.hpp:54-70 | The loops and the scan wait for nothing but this: locking a node waits exactly while that node's own thread scans |
| NodeList.EntryOpens | include/lstm/detail/thread_synchronization.hpp:100-136 | A node can be constructed at once, registered or removed iff nobody holds the global lock, and scan iff nobody holds its mutex exclusively |
| NodeList.SomebodyGoesOn | include/lstm/detail/thread_synchronization.hpp:54-70 | There is no deadlock: while any thread is registering, unregistering or scanning, one of these threads can take its next step |
| NodeList.ReleasedByHolder | include/lstm/detail/thread_synchronization.hpp:54-70 | Every mutex unlocked by registration or removal is held by the thread that unlocks it |
| NodeList.NothingLeftLocked | include/lstm/detail/thread_synchronization.hpp:100-136 | A thread that is done registering or unregistering holds no mutex exclusively, although the list changed between the two loops |
| NodeList.ListIsRegistered | include/lstm/detail/thread_synchronization.hpp:100-136 | The list holds exactly the registered nodes, each once |
| NodeList.SomebodyScans | include/lstm/detail/thread_synchronization.hpp:100-115 | There is a run in which a thread registers its node and scans the list |
| PodVector.PodVector.EmplaceBack | include/lstm/detail/pod_vector.hpp:64-69 | Appends one element, doubling the buffer exactly when it is full |
| PodVector.PodVector.UnorderedErase | include/lstm/detail/pod_vector.hpp:79-89 | The last element takes the vacant place |
| PodVector.ErasedRemovesOne | include/lstm/detail/pod_vector.hpp:79-89 | That removes exactly the erased element from the multiset |
| WriteSet.DumbReferenceHash | include/lstm/detail/pod_hash_set.hpp:22-31 | The hash is exactly one bit |
| WriteSet.PodHashSet.FilterRejects | include/lstm/detail/pod_hash_set.hpp:152-161 | A variable whose bit is not in the filter is not in the set |
| WriteSet.PodHashSet.Find | include/lstm/detail/pod_hash_set.hpp:152-161 | Finds the variable's position iff it is in the set, filter and search agreeing |
| WriteSet.PodHashSet.LookUp | include/lstm/detail/pod_hash_set.hpp:164-174 | Returns the pending write iff there is one, else the hash to insert with |
| WriteSet.PodHashSet.PushBack | include/lstm/detail/pod_hash_set.hpp:111-120 | Adds one variable to the map of pending writes and keeps the filter covering every entry |
| WriteSet.AsMapAt | include/lstm/detail/pod_hash_set.hpp:51-58 | In a list without duplicates every entry is the map's entry for its variable |
| Transaction.Transaction.RwRead | include/lstm/detail/transaction_base.hpp:20-49 | On both paths: retry iff the variable is not valid, else the pending write or memory; an entry is added to the read set exactly for a read of memory |
| Transaction.Transaction.RwWrite | include/lstm/detail/transaction_base.hpp:241-266 | On both paths: retry iff not valid; the first write adds the pending storage and one callback for the replaced and one for the new storage, a later one assigns to the storage pending |
| Transaction.Transaction.RwAtomicWrite | include/lstm/detail/transaction_base.hpp:81-108 | On both paths the pending value is replaced, and the transaction retries iff the variable is not valid |
| Transaction.Transaction.RemoveWritesFromReads | include/lstm/detail/commit_algorithm.hpp:58-66 | Erasing in place while walking backwards leaves exactly the multiset of entries not written, duplicates included |
| Transaction.NotWrittenIn | include/lstm/detail/commit_algorithm.hpp:58-66 | What is left holds a variable iff it was read and is not written |
| Transaction.Transaction.LockWrites | include/lstm/detail/commit_algorithm.hpp:68-82 | Locks every variable if all are valid, otherwise leaves every version as it was |
| Transaction.Transaction.ValidateReads | include/lstm/detail/commit_algorithm.hpp:84-94 | Succeeds iff every remaining read is valid, otherwise restores every version |
| Transaction.Transaction.TryCommit | include/lstm/detail/commit_algorithm.hpp:136-145 | Alone, commits iff everything written and everything else read is valid; installs all writes under one new version or changes nothing |
| Transaction.UnlockRestores | include/lstm/detail/commit_algorithm.hpp:46-49 | On 64-bit words the exclusive or of `unlock` undoes `as_locked` |
| RedBlackTree.RbTree.Emplace | include/lstm/containers/rbtree.hpp:523-526 | Adds exactly one entry, after the last one not above it, and restores order, red-black rules and parent links |
| RedBlackTree.RbTree.EraseOne | include/lstm/containers/rbtree.hpp:528-535 | True iff an equal key is present; removes exactly one such entry and restores everything |
| RedBlackTree.RbTree.Find | include/lstm/containers/rbtree.hpp:507-520 | Returns a node with an equal key iff there is one, with duplicates on either side |
| RedBlackTree.RbTree.InsertCase1 | include/lstm/containers/rbtree.hpp:118-145 | Cases 1 to 3 repair the tree, keep the entries in order and terminate, each round climbing two levels |
| RedBlackTree.RbTree.InsertCase4 | include/lstm/containers/rbtree.hpp:147-189 | Straightening and the final rotation repair the tree |
| RedBlackTree.RbTree.InsertCase5 | include/lstm/containers/rbtree.hpp:191-201 | The final rotation repairs the tree |
| RedBlackTree.RbTree.DeleteCase1 | include/lstm/containers/rbtree.hpp:389-393 | A hole one black node short is repaired, entries kept in order, for every shape of the sibling |
| RedBlackTree.RbTree.DeleteCase3 | include/lstm/containers/rbtree.hpp:360-373 | As above for a black sibling; the recursion climbs one level |
| RedBlackTree.RbTree.DeleteCase2 | include/lstm/containers/rbtree.hpp:375-387 | As above when the sibling may be red |
| RedBlackTree.RbTree.DeleteCase4 | include/lstm/containers/rbtree.hpp:345-358 | As above when the sibling is plain under a red parent, or has a red child |
| RedBlackTree.RbTree.DeleteCase5 | include/lstm/containers/rbtree.hpp:316-343 | As above when the sibling has a red child on either side |
| RedBlackTree.RbTree.DeleteCase6 | include/lstm/containers/rbtree.hpp:300-314 | As above when the far child is red |
| RedBlackTree.RbTree.DeleteOneChild | include/lstm/containers/rbtree.hpp:395-408 | Unlinks a node with at most one child: its entry is gone, everything else is in order and red-black |
| RedBlackTree.RbTree.EraseImpl | include/lstm/containers/rbtree.hpp:410-421 | Removes the entry of a node, whatever its children |
| RedBlackTree.RbTree.RotateLeft | include/lstm/containers/rbtree.hpp:203-224 | Turns the subtree left in place and relinks parent and root |
| RedBlackTree.RbTree.RotateRight | include/lstm/containers/rbtree.hpp:226-247 | Turns the subtree right in place and relinks parent and root |
| RedBlackTree.RbTree.MinmaxHeight | include/lstm/containers/rbtree.hpp:434-460 | None of the debug assertions can fail, and the heights computed are those of the tree |
| RbModel.VerifyHolds | include/lstm/containers/rbtree.hpp:538-546 | Twice the shortest path is at least the longest |
| RbModel.InsertedCounts | include/lstm/containers/rbtree.hpp:249-278 | An insertion adds exactly one entry to the multiset |
| RbModel.RemovedCounts | include/lstm/containers/rbtree.hpp:410-421 | A removal takes exactly one entry with an equal key from the multiset |
| RbRepair.RecoloredReady | include/lstm/containers/rbtree.hpp:132-145 | Recoloring under a red uncle moves the only possible violation two levels up |
| RbRepair.UnbentReady | include/lstm/containers/rbtree.hpp:147-189 | The inner rotation makes parent and grandparent lie on one side |
| RbRepair.SettledRedBlack | include/lstm/containers/rbtree.hpp:191-201 | Recoloring and the outer rotation leave a red-black tree |
| RbRepair.SiblingRaisedShort | include/lstm/containers/rbtree.hpp:375-387 | Rotating a red sibling up leaves the same shortage under a red parent with a black sibling |
| RbRepair.LiftedShort | include/lstm/containers/rbtree.hpp:360-373 | Painting a plain sibling red moves the shortage to the parent |
| RbRepair.TradedRedBlack | include/lstm/containers/rbtree.hpp:345-358 | A red parent and a plain sibling trading colors end the shortage |
| RbRepair.OutwardShort | include/lstm/containers/rbtree.hpp:316-343 | The rotation of the sibling makes its far child red |
| RbRepair.FilledRedBlack | include/lstm/containers/rbtree.hpp:300-314 | The final rotation ends the shortage |

## Left out

- Weak memory orders and fences: every atomic operation takes effect at once, one at a time.
- The order in which the protocol model visits read and write sets: its loops visit the remaining entries in any order, which includes the order of the code; the exact loops are in `Transaction`, for one thread at a time.
- Registration of threads during a run of the protocol: the set of threads is fixed there; the list of nodes and its lock are modelled separately in `NodeList`, whose mutexes are taken in one step when free, as the exclusion proved in `FastRwMutex` allows.
- Untracked reads inside a transaction that writes: they are part of opacity, not of serializability, because the commit does not validate them.
- The contents of heap storages: a storage is a name; a second write to the same variable assigns to the pending storage, which other threads cannot see, and is modelled as leaving the name in place.
- Epoch queue order after a commit without writes that queues callbacks: the model queues a chunk only for a commit that wrote a heap variable, so the epoch 0 such a transaction would get never enters a queue.
- Callbacks that start transactions or touch the buffer, and user callbacks other than those that free storages.
- `unsafe_get`, `unsafe_set` and destroying a variable while it is shared: they bypass the protocol.
- Overflow of the 63-bit clock: the bump is enabled only while the code's own assertion on the clock holds.
- Transaction.Transaction.RwRead: for one thread at a time; what another thread may do between the load of the storage and the version test is the subject of `StmTheorems.Opacity`.
- Transaction.Transaction.RwWrite: for one thread at a time, as above; assigning to a storage already pending is told to the caller as `Assigned`, the contents of storages are not modelled.
- Transaction.Transaction.RwAtomicWrite: for one thread at a time, as above.
- Transaction.Transaction.LockWrites: for one thread at a time, so a compare-and-swap is not lost to another thread; with other threads it is the actions `LockLoad` and `LockCas` of `Stm`.
- Transaction.Transaction.ValidateReads: for one thread at a time, as above.
- Transaction.Transaction.TryCommit: for one thread at a time; `CommitSchedule.CommitAsScheduled` says which runs of the protocol it is.
- RedBlackTree.RbTree.DeleteOneChild: does not free the unlinked node, because allocation is not part of the model of the tree.
- ThreadData.WaitMinEpoch: does not say when waiting on a node ends, because that is up to the thread of the node; `ReclaimScan.WaitsUntilNewer` and `ReclaimScan.ReclaimCompletes` say it among running threads.
- ThreadData.ThreadData.ReclaimAll: the epochs the nodes show as the scan comes to them are an argument; that a scan among running threads finds the same bound is `ReclaimLoops.ScanFindsBound`.
- ThreadData.ThreadData.ReclaimSlowPath: the epochs the nodes show are an argument, as above.
- ThreadData.ThreadData.Reclaim: the epochs the nodes show are an argument, as above.
- Quiescence.QuiescenceBuffer.FinalizeEpoch: does not say how the callbacks are laid out, because the ring's slots are an implementation detail fixed by the invariant.
- Allocation failure and exceptions thrown by allocators; exceptions thrown by the user's function are the action that throws.
- Backoff, liveness under contention, statistics, the hash's choice of shift for other alignments, `shrink_to_fit` of the ring buffer (not implemented), and the futures in `privatized_future.hpp`.
- `destroy_deallocate_subtree` and `clear` of the tree: freeing a whole subtree follows left links only and is not claimed to free every node.
- Concurrent use of the tree: it is modelled as the code inside one transaction; its reads through the transaction are plain reads here.
