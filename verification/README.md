# prism-harness, modelled in Dafny

prism-harness is the state layer of an agent harness: sessions, threads, task lists and an address index
behind a directory lock, an approval machine over the thread, run budgets shared by a tree of agents, and a
checker for structured answers. This project models that layer and proves what its documentation and tests
promise about it. `dafny verify dfyconfig.toml` checks all of it.

How the parts fit:

- **The lock** (`DirectoryLock`, `LockCleanup`, `LockRecovery`, `LockReacquire`) is a transition system with one
  filesystem call per step: lstat, list, read, temp write, replace, unlink, rmdir, rename. Any number of
  processes run any number of attempts; every call may be refused, every process may crash between two calls,
  and both rename semantics are covered (IEEE Std 1003.1-2017, System Interfaces, `rename()`, against a rename
  that refuses any existing target).
- **The documents behind it** (`LockedStore`, `SharedDocuments`) put a read step and a write step inside the
  lock's callback and carry the task list (`Tasks`, `TaskHistory`, `TaskSource`) and the thread (`Thread`)
  through every interleaving.
- **The index** (`AddressIndex`, `IndexStore`, `IndexRecovery`, `IndexedData`, `IndexPaging`) is a map with
  atomic puts; a call is the list of its puts, a crash keeps a prefix of it. `LockedIndex` puts those calls
  inside the lock's callbacks, put by put.
- **The thread as it is read** (`Dicts`, `ThreadRows`, `ThreadLaws`, `ToolScope`, `ScopeLaws`) is the fold of
  stored rows, old formats included, and the scope a stopped turn leaves.
- **Approvals** (`Approvals`, `ApprovalRace`, `ApprovalProgress`, `Replay`, `Sessions`): what a stopped turn
  waits for, what racing resumers and approvers may and can do to it, and what a session driven send after send
  does and keeps.
- **Budgets** (`Budgets`) is the shared ledger and the recursion of nested runs; **the schema checker**
  (`SchemaCheck`, `SchemaMeaning`) is the recursive checker, the relation it decides, and what its words mean.

Code that changes things in place is a class or a loop proved against functions of the same module; the
lemmas are about those functions.

What the proofs found:

- *Recovery is not unconditional.* Two things an owner can leave are held for good. A directory listing that
  precedes the owner's temp file, followed by the owner's crash, leaves that temp file alone in the directory
  (`OrphanIsReachable`, `OrphanIsForever`). Where rename refuses any existing target, an owner that exits
  between its unlink and its rmdir leaves an empty directory (`EmptyIsReachable`). A record whose identity
  cannot be compared stays with its process. `AcquirableIffReacquirable` is the exact condition over
  everything a released or exited owner can leave, `AcquirableAtRest` the same with nobody in the middle of a
  removal, and `RecoversIffListed` says what an inspection under way comes to, however it goes on without a
  fault. "Can be acquired" means that some run ends inside a callback; processes may start and exit in it,
  since a reused PID makes an exited owner look alive for as long as it runs.
- *A private directory can stay.* The clean-up of a failed attempt stops when the owner file is not there, so an
  attempt that fails between its mkdir and its owner file leaves an empty private directory
  (`CleanUpLeavesNothing`, which has both directions).
- *A resolution does not always settle its turn.* `_unresolved` looks at the first tool result row behind the
  turn only. `ResolutionSettles` says exactly when the recorded answer lands there, `StuckTurn` shows a thread
  where it does not; in sequential sends without refused calls it always does (`Resolve`).
- *A grant can outlast its lease, and its run, by rounding.* `_timestamp` truncates towards zero, so a negative
  clock rounds up; `GrantLasts` and `ExtensionEndsWithRun` have both directions, `GrantCanOutlastLease` and
  `ExtensionCanOutlastRun` an input each.
- *A dead write.* In `claim`, the write that stores expiries when there is nothing to hand out
  (src/prism_harness/tasks.py:497) is never reached: an expiry always leaves something to hand out.
- *`anyOf` pre-empts.* One more alternative never refuses a document; a first one decides alone, so it refuses
  exactly the documents it does not accept itself (`FirstAlternativeDecides`).

Assumptions, as the code makes them: nonces and approval ids are fresh, a dead verdict holds only for an
exited process and identities compare exactly, digests are injective, call ids are distinct within one
response, and no crash falls between a tool's handler and the row that records its result. Clocks and costs
are reals; the clock is monotone where a property needs it. What the model client answers, what each tool's
handler does, the ids drawn for approvals, prices and tool resolution are arbitrary inputs.

## Model

| member | source | states |
|---|---|---|
| `DirectoryLock.MutualExclusion` | src/prism_harness/stores/_file_owner_lock.py:283-401 | over any number of processes and attempts, any interleaving of filesystem calls, any crashes and refusals, under either rename semantics: two live attempts inside their callbacks are the same attempt, and its own unreleased record is then the whole content of the canonical directory |
| `DirectoryLock.HolderIsUnique` | src/prism_harness/stores/_file_owner_lock.py:359-401 | at most one live attempt stands between its successful rename and its published release |
| `DirectoryLock.StepKeepsInv` | src/prism_harness/stores/_file_owner_lock.py:159-401 | every single filesystem call, crash and start keeps the invariant of the protocol, and takes back nothing an inspector may have learnt (released records stay released, exited processes stay exited) |
| `DirectoryLock.ReachableInv` | src/prism_harness/stores/_file_owner_lock.py:283-401 | the invariant holds in every state any run reaches from a free or foreign-occupied path |
| `DirectoryLock.StepLeavesOthers` | src/prism_harness/stores/_file_owner_lock.py:283-401 | one attempt's call adds or changes no file of another attempt on the path, and leaves the path of a live holder exactly as it is |
| `DirectoryLock.RemovalIsBound` | src/prism_harness/stores/_file_owner_lock.py:159-263 | a published record disappears only by its own attempt, or by an inspector of the same known identity once the record says released or its process has exited: a stale inspector, a late releaser or a resumed pending release never removes another live nonce's record, and a record of a foreign or unknown identity is only ever removed by its own process; a record that was there before any attempt is only ever removed by an inspector of the identity it names |
| `DirectoryLock.LostOnlyByTarget` | src/prism_harness/stores/_file_owner_lock.py:159-191 | an inspection removes files of its target nonce only |
| `DirectoryLock.PopulatedDirectoryStays` | src/prism_harness/stores/_file_owner_lock.py:174-191 | no call removes or replaces a directory that holds files, nor more than one of its files |
| `DirectoryLock.ReleaseConservation` | src/prism_harness/stores/_file_owner_lock.py:234-280 | once its callback has ended, a live process's nonce is still releasing, or listed as pending, or its record is gone; a pending nonce is never inside a callback |
| `DirectoryLock.ReleaseAdvances` | src/prism_harness/stores/_file_owner_lock.py:234-263 | an unrefused release call always gets strictly closer to the end, wherever a failed attempt left it |
| `DirectoryLock.FlushOne` | src/prism_harness/stores/_file_owner_lock.py:266-280 | a fault-free release of one pending nonce ends, takes it off the table and moves nothing but that nonce and the canonical path |
| `DirectoryLock.FlushEmptiesPending` | src/prism_harness/stores/_file_owner_lock.py:266-280 | a fault-free flush empties the process's pending table and leaves none of those records on disk |
| `LockCleanup.CleanUpLeavesNothing` | src/prism_harness/stores/_file_owner_lock.py:159-191 | from every reachable state and whatever others do meanwhile: an attempt that gives up, with no clean-up call failing for good, leaves nothing of its private directory if and only if it had written its owner file; a directory that never held one stays behind, empty |
| `LockCleanup.CleanUpEnds` | src/prism_harness/stores/_file_owner_lock.py:380-382 | and two calls that are not refused end that clean-up |
| `LockCleanup.FailsOutOfCleanUp` | src/prism_harness/stores/_file_owner_lock.py:334-382 | an attempt fails at its mkdir or out of its clean-up, and from nowhere else |
| `LockCleanup.FailedCallTells` | src/prism_harness/stores/_file_owner_lock.py:159-382 | a call that fails changes no file; before the callback it sends the attempt to its clean-up, except that a held rename is inspected and a held inspection is looked at again; a refused unlink, rmdir or replace is tried again where it was; any other failed call of a release leaves it pending |
| `LockCleanup.ForeignPathIsLeft` | src/prism_harness/stores/_file_owner_lock.py:341-373 | the next look at such a path ends the attempt, and an inspection ends it too when it is a legacy file |
| `LockCleanup.ForeignPathStays` | src/prism_harness/stores/_file_owner_lock.py:341-373 | a legacy file or any other path that is no directory is changed by no run of any length, and nobody ever enters a callback there |
| `LockCleanup.ReleaseBegins` | src/prism_harness/stores/_file_owner_lock.py:234-263 | a release whose record is gone is done; one published before removes its temp file and goes on; one still its own is published first; any other record is left and the release stays pending |
| `LockRecovery.EveryInspectionEnds` | src/prism_harness/stores/_file_owner_lock.py:159-231 | however an inspection over anything a released or exited owner can leave goes on without a fault, it makes a bounded number of calls, always has a next call until it is over, and then leaves the path as what it had listed and what was there decided |
| `LockRecovery.RecoversIffListed` | src/prism_harness/stores/_file_owner_lock.py:194-231 | however an inspection under way goes on without a fault over anything a released or exited owner can leave, when it is over the path is free if and only if it was free, or it was at its rmdir and the directory empty, or the owner's record is there, whatever is left of its listing is too, and a temp file beside the record was in the listing |
| `LockRecovery.FreshInspectionRecovers` | src/prism_harness/stores/_file_owner_lock.py:194-231 | however an inspection that begins after the owner released or exited goes on without a fault, when it is over the path is free when the owner's record was still there, and otherwise as it was: an empty directory and an orphaned temp file stay |
| `LockRecovery.InspectionRun` | src/prism_harness/stores/_file_owner_lock.py:159-231 | such an inspection can go on to its end: a fault-free run is constructed that completes it |
| `LockRecovery.InspectionTells` | src/prism_harness/stores/_file_owner_lock.py:203-224 | an inspection goes past the listing only when there is exactly one owner file and nothing beside it but its temp file, past the entries only once each was found a regular file, and past the record only when it is complete, of that nonce and of the inspector's own known identity; a released record is then cleaned up, any other probed first, and everything else is held |
| `LockRecovery.OrphanIsReachable` | src/prism_harness/stores/_file_owner_lock.py:203-224 | two processes and a crash reach, from a free path, a directory holding nothing but an orphaned temp file |
| `LockRecovery.OrphanIsForever` | src/prism_harness/stores/_file_owner_lock.py:174-191 | from there no run of any length changes the directory, and no live attempt is ever inside its callback |
| `LockReacquire.AcquirableIffReacquirable` | src/prism_harness/stores/_file_owner_lock.py:159-401 | over anything a released or exited owner can leave and whatever others are in the middle of, some run acquires the path again if and only if it is free; or the record is there and its identity can be compared, or its live owner is releasing it; or the directory is empty and rename replaces it or a removal is due; or a sweep already due, with that, clears an orphaned temp file |
| `LockReacquire.AcquirableAtRest` | src/prism_harness/stores/_file_owner_lock.py:194-231 | with the owner exited and nobody in the middle of a removal: if and only if the path is free, or a comparable record is there, or the directory is empty and rename replaces an empty directory |
| `LockReacquire.EmptyIsReachable` | src/prism_harness/stores/_file_owner_lock.py:182-191 | where rename refuses any existing target, an owner that exits between its unlink and its rmdir leaves an empty directory that no run ever frees |
| `LockReacquire.StuckForever` | src/prism_harness/stores/_file_owner_lock.py:203-206 | from a path that is stuck no run of any length brings a live attempt into its callback |
| `LockReacquire.CanGo` | src/prism_harness/stores/_file_owner_lock.py:344-373 | from a path that is not stuck a run is constructed that ends inside a callback |
| `LockedStore.CallbacksAreSerial` | src/prism_harness/stores/file.py:61-121 | with the locked read and write as separate steps among all the lock's filesystem calls, crashes included, the stored document is what some serial order of the callbacks leaves, in clock order, each attempt committing once and answered as in that order |
| `LockedStore.OneCallback` | src/prism_harness/stores/_file_owner_lock.py:388-389 | two attempts that have read but not yet written are the same attempt |
| `LockedStore.EnteredOnce` | src/prism_harness/stores/_file_owner_lock.py:387-401 | no step brings an attempt back into a callback it has left |
| `LockedStore.PutKeeps` | src/prism_harness/stores/file.py:87-121 | a write made under the lock extends the serial order by exactly that callback |
| `LockedStore.CallbackCommits` | src/prism_harness/stores/file.py:61-121 | a callback that is left alone can read, ask the clock and write, and its job then lands on the document as it stood and is answered |
| `SharedDocuments.ConcurrentTasksAreLawful` | src/prism_harness/tasks.py:483-508 | concurrent workers on one list get the answers of a serial history, every one of them lawful, and no task is dropped or reordered |
| `SharedDocuments.NoTaskIsSharedByTwo` | src/prism_harness/tasks.py:483-508 | two concurrent claims of one task with no extension or release of it between them: the first lease ended before the second began |
| `SharedDocuments.ConcurrentAppendsAreWhole` | src/prism_harness/thread.py:64-95 | concurrent appends, each under its own run id, lose no message, keep each batch contiguous, number positions from 1, and every entry carries its worker's run id; each worker is answered its own batch |
| `Thread.Thread.Record` | src/prism_harness/thread.py:64-95 | the batch is appended in order behind the stored entries with the next positions and the run id, and returned; an empty batch writes nothing |
| `Thread.BatchContinues` | src/prism_harness/thread.py:74-95 | behind a numbered thread the batch continues the numbering, and the messages read are the old ones, then the batch |
| `Thread.BatchesJoin` | src/prism_harness/thread.py:74-95 | two batches appended one behind the other are numbered as one batch |
| `Thread.Thread.Clear` | src/prism_harness/thread.py:97-109 | the stored list is empty afterwards |
| `AddressIndex.Prepare` | src/prism_harness/address_index.py:199-203 | journalling an append changes what the head says is pending and nothing else the disk stands for |
| `AddressIndex.WritePage` | src/prism_harness/address_index.py:143-147 | a page put adds the journalled address at its offset of its page and disturbs no other page |
| `AddressIndex.WriteEntry` | src/prism_harness/address_index.py:150 | an entry put makes the journalled address findable at its position and no other |
| `AddressIndex.Commit` | src/prism_harness/address_index.py:151-154 | the last put turns the journalled append into a committed one |
| `AddressIndex.AddResource` | src/prism_harness/address_index.py:184-196 | a further resource of a known address is one atomic put of its entry |
| `AddressIndex.SliceAppend` | src/prism_harness/address_index.py:143-147 | pages of 100 in insertion order: an append extends exactly the page of its position, whose length is its offset |
| `AddressIndex.SliceAt` | src/prism_harness/address_index.py:231-240 | an address stands on the page and at the offset its position divides into |
| `AddressIndex.PageTells` | src/prism_harness/address_index.py:114-128 | a page that was never written is empty; a stored one is accepted exactly when it lists at most a hundred |
| `AddressIndex.HeadTells` | src/prism_harness/address_index.py:97-112 | a head that was never written is empty; a stored one is accepted exactly when its count is not negative and its pages are those of a hundred addresses each that hold the count |
| `IndexStore.StoreAddressIndex.Roll` | src/prism_harness/address_index.py:130-154 | the roll-forward, put by put, makes exactly the puts of its specification, in order, and refuses a journal, page or offset that does not fit |
| `IndexStore.StoreAddressIndex.Recover` | src/prism_harness/address_index.py:208-215 | as specified by RecoverCall, put for put |
| `IndexStore.StoreAddressIndex.Record` | src/prism_harness/address_index.py:156-206 | as specified by RecordCall, put for put, so that a crash leaves one of its prefixes |
| `IndexStore.StoreAddressIndex.AddTo` | src/prism_harness/address_index.py:171-196 | an entry that does not fit its head or page is refused; a known resource writes nothing; a new one is one put |
| `IndexStore.StoreAddressIndex.AddNew` | src/prism_harness/address_index.py:197-204 | a new address past the limit is refused with nothing written; otherwise it is journalled and rolled forward, put for put as specified |
| `IndexRecovery.RecoverTraces` | src/prism_harness/address_index.py:130-154 | after each put of a recovery the disk stands for the next stage of the journalled append, from whichever put the crash left it at |
| `IndexRecovery.RecordTraces` | src/prism_harness/address_index.py:156-206 | after each put of a record the disk stands for the next stage; a new address past the limit is refused and nothing of it is written |
| `IndexRecovery.CallTraces` | src/prism_harness/address_index.py:156-215 | both calls answer success, or the limit refusal exactly when the address is new and the limit reached: no integrity error |
| `IndexRecovery.CrashIsAtomic` | src/prism_harness/address_index.py:130-206 | a call cut off after any number of its puts leaves the old address map up to the put that journals or extends, and the new one from it on |
| `IndexRecovery.InterruptedRecovery` | src/prism_harness/address_index.py:130-154 | recovery, itself cut off any number of times, ends in the map the disk stood for, and has nothing left to put when repeated |
| `IndexRecovery.IntegrityErrorsAreUnreachable` | src/prism_harness/address_index.py:97-154 | from a fresh root, through any calls cut off anywhere, none of the integrity errors is ever answered |
| `IndexRecovery.EmptyHolds` | src/prism_harness/address_index.py:97-112 | a root nobody has written stands for the empty map |
| `IndexedData.DataIsAlwaysIndexed` | src/prism_harness/address_index.py:275-277 | from a fresh root, over any steps of any writers with the record and the write apart and crashes and other writers' calls between them: once recovered, the disk lists every key that holds data, and every key a writer may still write |
| `IndexedData.RefusedKeysHoldNoData` | src/prism_harness/address_index.py:275-277 | a key whose every record was refused, failed or was cut off never holds data |
| `IndexedData.CutKeepsLists` | src/prism_harness/address_index.py:156-206 | a call cut off anywhere drops no listed resource, and a record that was answered has listed its own |
| `IndexedData.WriteNeedsAnswer` | src/prism_harness/address_index.py:275-277 | a writer may write a key exactly when its own record of it made all its puts and was answered; the key then holds data until it is forgotten; a writer that died writes nothing |
| `LockedIndex.ConcurrentCallsAreSerial` | src/prism_harness/address_index.py:156-215 | with every put of a call a step of its own among all the lock's filesystem calls, refusals and crashes of all processes, the disk is what the calls leave one after another in the order they began, each cut off behind the puts it made |
| `LockedIndex.SharedIndexHolds` | src/prism_harness/address_index.py:97-215 | so from a fresh root the disk stands for an index at every moment, and a call that begins then is answered success or the limit refusal |
| `LockedIndex.CallbackCompletes` | src/prism_harness/address_index.py:206-215 | a callback that is left alone makes every put of its call and leaves what the whole call leaves |
| `IndexPaging.SeenStaysReadable` | src/prism_harness/address_index.py:231-252 | whatever has been recorded since, the page slots of the addresses a reader saw committed still name them, and their entries hold the resources they have by then, none of the earlier ones lost |
| `IndexPaging.CallRises` | src/prism_harness/address_index.py:130-206 | no writer, at any point of any call, takes a committed address away, moves one, or takes a resource from one |
| `IndexPaging.ReadPage` | src/prism_harness/address_index.py:217-252 | racing any writers and their crashes, the head is read at an index that stood when the call began or since; with nothing pending in it the page never fails and holds exactly the addresses committed then at its positions, each with the resources it had in that index or a later one and none of them missing, and the right next cursor; recovery is asked for if and only if an append was pending in it, and only a bad cursor or limit is refused otherwise |
| `IndexPaging.ReadEntries` | src/prism_harness/address_index.py:231-252 | with the count read once, the entries are read page by page while others write; all are found, and each is the entry some index since then held at its position, resources included |
| `IndexPaging.ReadAll` | src/prism_harness/address_index.py:217-252 | following next_cursor from 0 ends, even with appends between pages, and lists every address committed at its last head once in insertion order, each with every resource it had when the reading began; it fails if and only if an append was pending in that head |
| `IndexPaging.RacingStore.Meanwhile` | src/prism_harness/address_index.py:156-206 | any number of single puts, crashes and new calls of other writers keep the index valid, only extend its committed addresses and only add resources |
| `Tasks.GrantLasts` | src/prism_harness/tasks.py:1000-1008 | every grant ends strictly after it is made, despite truncation; it ends no later than now plus the lease if and only if that sum is not negative or is whole, since truncation rounds a negative sum up |
| `Tasks.GrantCanOutlastLease` | src/prism_harness/tasks.py:1000-1008 | a clock and a lease at which the grant outlasts the lease |
| `Tasks.ExtensionEndsWithRun` | src/prism_harness/tasks.py:653-701 | with both clocks read together an extension ends after it is made, and no later than the run's start plus max_seconds if and only if the sum truncated is not negative, or the lease leaves the run a whole second, or the fraction of a second left over reaches the clock's next second |
| `Tasks.ExtensionCanOutlastRun` | src/prism_harness/tasks.py:653-701 | a run and a clock before the epoch at which the extension passes the run's end by truncation |
| `Tasks.ExpireTwice` | src/prism_harness/tasks.py:878-905 | expiring at one time and then later is expiring later |
| `Tasks.OperationsCommuteWithExpiry` | src/prism_harness/tasks.py:483-508 | no operation's answer, nor the list it leaves up to expiry, depends on whether an earlier expiry was stored |
| `Tasks.LazyRefinesEager` | src/prism_harness/tasks.py:586-597 | over any history the lazy list answers exactly what a machine whose leases lapse on time would |
| `Tasks.AddSame` | src/prism_harness/tasks.py:440-466 | adding, ids and refusals included, does not depend on stored expiries either |
| `Tasks.BatchLandsWhole` | src/prism_harness/tasks.py:424-466 | a batch lands in order, free to take, under the ids given or t-<position>, if and only if none of its ids is blank, used in the list or repeated; otherwise nothing lands and the first such id says why |
| `Tasks.ExtensionAnswers` | src/prism_harness/tasks.py:644-701 | an extension moves only the expiry, exactly for the worker who holds the task and while his run may spend and has a whole second left; it grants the lease asked for or the whole seconds the run has; refusals in the code's order |
| `Tasks.ReleaseAnswers` | src/prism_harness/tasks.py:548-584 | a release settles the task as done or failed, as the outcome says, exactly for the worker who holds it; otherwise not found, already terminal or lease not held, in that order |
| `Tasks.ClaimAnswers` | src/prism_harness/tasks.py:483-508 | a claim answers the first task that is free or whose lease is over, claimed in the worker's name until a whole second within one second of now plus the lease, after now; nothing when there is none; a blank worker or a bad lease is refused first |
| `Tasks.WholeLeases` | src/prism_harness/tasks.py:974-978 | a lease is accepted if and only if it is a positive whole number of seconds |
| `Tasks.DigitsAreDecimal` | src/prism_harness/tasks.py:445 | the number in a generated id is the position in decimal, without leading zeros |
| `TaskHistory.EventLawful` | src/prism_harness/tasks.py:424-701 | every operation keeps the list's invariant, keeps all tasks in order with their ids and instructions, keeps terminal states, and answers lawfully: claims only free tasks, settles only by the latest claimant before the latest expiry |
| `TaskHistory.TakesFirstFree` | src/prism_harness/tasks.py:483-508 | over any history: a claim takes the first task nobody has or whose latest grant is over, and answers None exactly when there is none |
| `TaskHistory.ReadsAnswer` | src/prism_harness/tasks.py:586-715 | adding answers exactly what it appended; counting answers how many tasks may be taken, and listing shows every task with the claims that are over as free, both without changing anything |
| `TaskHistory.ServedIffHeld` | src/prism_harness/tasks.py:548-701 | over any history: a release settles, and an extension extends while its run may go on, if and only if the worker has the latest grant of the claimed task and it is not over |
| `TaskHistory.RunOk` | src/prism_harness/tasks.py:424-701 | the same over whole histories under a monotone clock |
| `TaskHistory.HistoryIsLawful` | src/prism_harness/tasks.py:424-701 | every answer of a history is lawful in the state it was given |
| `TaskHistory.SettlesOnce` | src/prism_harness/tasks.py:548-584 | a settled task is never taken, extended or settled again |
| `TaskHistory.LeasesDoNotOverlap` | src/prism_harness/tasks.py:483-508 | a task is claimed again only at or after the expiry its last claimant was granted |
| `TaskHistory.GrantStands` | src/prism_harness/tasks.py:878-905 | a grant stays the latest one until the task moves |
| `TaskHistory.HolderHasLatestGrant` | src/prism_harness/tasks.py:553-575 | a worker the ownership checks let through holds the latest grant, and it is not over |
| `TaskHistory.MoversAreOpen` | src/prism_harness/tasks.py:548-584 | no answer moves a task that is terminal |
| `TaskSource.ExpireAll` | src/prism_harness/tasks.py:878-905 | the loop frees exactly the claimed tasks whose lease is over and says whether it freed any |
| `TaskSource.StoreTaskSource.AddMany` | src/prism_harness/tasks.py:424-466 | all of the new tasks or none of them are stored, with the reply of the specification |
| `TaskSource.StoreTaskSource.Claim` | src/prism_harness/tasks.py:468-508 | list and reply as specified, the task in the worker's name and its expiry within a second of now plus the lease asked for or the source's own; the write that would follow an expiry without a task to hand out is never reached |
| `TaskSource.StoreTaskSource.Release` | src/prism_harness/tasks.py:510-584 | list and reply as specified, refusals in the code's order; a settled task is done when the outcome was done and failed when it was failed, and is nobody's |
| `TaskSource.StoreTaskSource.ExtendLease` | src/prism_harness/tasks.py:605-701 | list and reply as specified, refusals in the code's order |
| `TaskSource.StoreTaskSource.Pending` | src/prism_harness/tasks.py:586-597 | counts the free tasks, lapsed leases included, and writes nothing |
| `TaskSource.StoreTaskSource.Find` | src/prism_harness/tasks.py:599-603 | the task as it reads after expiry, or none |
| `TaskSource.ExpiryFeedsClaim` | src/prism_harness/tasks.py:483-504 | a claim that finds a lapsed lease never answers None |
| `TaskSource.ClaimTakesNext` | src/prism_harness/tasks.py:483-508 | a claim takes the first free task and leaves the others free in their order |
| `TaskSource.DrainsInOrder` | src/prism_harness/tasks.py:483-508 | under a frozen clock exactly pending() claims succeed, in insertion order, before None |
| `TaskSource.CountIsLength` | src/prism_harness/tasks.py:586-597 | what pending() counts is how many tasks there are to hand out |
| `Budgets.SpendIsBounded` | src/prism_harness/subagents.py:204-240 | steps allowed one by one under a budget stop at its step ceiling; metered cost passes a cap by at most the one step that crossed it; with a cap, one unmetered step is the last step |
| `Budgets.ExhaustionTells` | src/prism_harness/subagents.py:204-240 | each reason is given exactly when it is the first of cancelled, steps, unknown cost, cost and time to hold, and none exactly when none holds |
| `Budgets.NestedIsTighter` | src/prism_harness/subagents.py:63-110 | whatever a nested budget allows, its parent's allows |
| `Budgets.NestedAllowsWhatWasDeclared` | src/prism_harness/subagents.py:63-110 | whatever the tree has spent: a child may take a step if and only if its parent may and the tree has not yet spent, since the child began, what the child declared in steps, metered cost and seconds; its output ceiling is the lower of the two |
| `Budgets.BoundedIsTighter` | src/prism_harness/runtime.py:235-254 | configured ceilings only ever tighten a run's budget |
| `Budgets.BoundedAllowsWhatWasConfigured` | src/prism_harness/runtime.py:235-254 | and with configured ceilings: if and only if the run's budget allows it and the steps since the run began are below the ceiling |
| `Budgets.SubtreeTakesDeclaredSteps` | src/prism_harness/subagents.py:63-89 | a child's whole subtree takes at most the steps the child declares, inside the parent's ceiling |
| `Budgets.RunLedger.RecordCost` | src/prism_harness/subagents.py:166-180 | an unmetered step is counted and costs nothing; a negative price counts as nothing |
| `Budgets.Loop` | src/prism_harness/runtime.py:494-520 | the loop ends; every step it took itself was allowed by its own bounded budget at the moment of its check, every other is of a deeper run, and it stops for a budget only when that is spent, for the reason given |
| `Budgets.Turn` | src/prism_harness/runtime.py:359-386 | a turn of any nested tree, its resolution and loop included, accounts for every step on the shared ledger and stays in its context's budget, its own steps also in the configured ceilings; it is refused, with nothing spent, if and only if it is nested four deep |
| `Budgets.RunSubagent` | src/prism_harness/subagent_runner.py:91-169 | a child is refused, with nothing spent, if and only if the parent's budget is exhausted or the child would be nested four deep; every step its tree takes is allowed by the parent's budget and by the nested one; it takes at most the declared steps, passes the declared cost by at most one step and takes no step past the declared seconds |
| `Budgets.SpentTwice` | src/prism_harness/subagents.py:113-192 | what two stretches of a tree spent accounts for the whole |
| `Dicts.CollapseIsFirstPlaceLastValue` | src/prism_harness/thread_rows.py:252-262 | building a dictionary from entries keeps each key once, where it first stood, with the value that came last |
| `Dicts.CollapseAbsorbs` | src/prism_harness/thread_rows.py:252-262 | folding a part first changes nothing, on either side |
| `Dicts.Build` | src/prism_harness/thread_rows.py:256-260 | the loop over a dictionary is that collapse |
| `ThreadRows.FoldRows` | src/prism_harness/thread_rows.py:252-262 | results by call id and decisions by approval id, as specified |
| `ThreadRows.Normalise` | src/prism_harness/thread_rows.py:166-249 | rows of 0.1.0 read in today's shape; an old request row joins the latest assistant row of the view, or is dropped when there is none |
| `ThreadRows.ThreadView` | src/prism_harness/thread_rows.py:85-109 | the loop gives the view of the specification for every list of rows, old and new |
| `ThreadRows.ViewIsAttachThenMerge` | src/prism_harness/thread_rows.py:85-109 | the one pass is the two: attach every old request to the assistant row it follows, then merge each maximal run of tool result rows |
| `ThreadRows.AttachedEnd` | src/prism_harness/thread_rows.py:230-244 | attaching looks only at the latest assistant row |
| `ThreadRows.MergedEnd` | src/prism_harness/thread_rows.py:104-107 | merging maximal runs is folding row by row |
| `ThreadLaws.FoldIsAssociative` | src/prism_harness/thread_rows.py:252-262 | folding is associative |
| `ThreadLaws.ViewIsShown` | src/prism_harness/thread_rows.py:85-109 | no two tool result rows stand side by side in a view, and every row is in today's shape without its stored offer |
| `ThreadLaws.ViewTwice` | src/prism_harness/thread_rows.py:85-109 | the view of a view is itself |
| `ThreadLaws.AppendingGrows` | src/prism_harness/thread_rows.py:85-109 | appending rows in today's format changes at most the last row of the view, which only gains keys |
| `ThreadLaws.OldRequestAsksOnce` | src/prism_harness/thread_rows.py:230-244 | an old request row changes the requests of the latest assistant row and nothing else |
| `ThreadLaws.RowReads` | src/prism_harness/thread_rows.py:166-249 | what each stored row reads as: a result or decision of 0.1.0 is what a lookup of its call or approval then finds, a request is an approval under the call's own id on the latest assistant row, and today's rows read as they are without the stored offer; nothing else of the view changes |
| `ToolScope.ApprovalToolScope` | src/prism_harness/thread_rows.py:112-163 | the backward loop is the scope of the specification |
| `ScopeLaws.ScopeTells` | src/prism_harness/thread_rows.py:112-163 | for every thread: behind a user's words, behind a turn that asked for nothing, or before anyone has spoken there is no scope; otherwise it is the offer stored with the latest turn that asked for as many approvals, all of them this turn's, if every name of it is a tool's; and if not, exactly the tools of the turn's calls whose latest decision approves |
| `ToolScope.StoppedTurnKeepsItsOffer` | src/prism_harness/thread_rows.py:112-149 | a stopped turn with a valid stored offer resumes with that offer, whatever results and decisions stand behind it |
| `ToolScope.StoredTurn` | src/prism_harness/thread_rows.py:129-144 | the offer is looked up on the latest stored assistant row that asked for as many approvals, all of them among the turn's, and nowhere when there is none |
| `ToolScope.ApprovedNames` | src/prism_harness/thread_rows.py:150-161 | without a valid stored offer only tools of approved calls are offered, never an empty name or the wildcard |
| `ToolScope.Narrowed` | src/prism_harness/runtime.py:927-935 | no request, or one for everything, gives the mode's list; any other gives the request itself, refused exactly when it names a tool outside a mode that does not reach all |
| `ToolScope.AtStart` | src/prism_harness/runtime.py:413-425 | a run starts with tools that were resolved for it and, when an approval is pending, are in the stored scope and in the mode |
| `ToolScope.Bounded` | src/prism_harness/runtime.py:671-676 | read again under the lock, the scope only takes tools away; without one nothing approved may run |
| `ScopeLaws.OnceKeepsPlaces` | src/prism_harness/thread_rows.py:149 | no name stands twice, and each keeps its first place |
| `ToolScope.OffersSplit` | src/prism_harness/runtime.py:421-425 | tools are offered in the order they were resolved in |
| `Approvals.UnresolvedTells` | src/prism_harness/runtime.py:712-761 | work is reported for the last turn that called tools if and only if one of its calls has no result in the first result row behind it and was asked about or is gated, by name or by '*'; it holds exactly those calls, and the latest result, decision and approval of every id, and the stored scope |
| `Approvals.Pending` | src/prism_harness/runtime.py:750-757 | exactly the calls without a result that have a request or whose tool the mode gates |
| `Approvals.PendingSplits` | src/prism_harness/runtime.py:752-757 | the pending calls keep the order and the number of the turn's calls |
| `Approvals.AnswerTo` | src/prism_harness/runtime.py:679-697 | every branch answers the call it was asked about, with its id, tool and arguments |
| `Approvals.HandlerShowsIffRun` | src/prism_harness/runtime.py:679-697 | a handler runs if and only if the latest decision on the call's own approval approves it and its tool is within bounds, and then its result, or its failure's message, is the answer; otherwise the answer is the person's words, the standard refusal, or why it did not run |
| `Approvals.ResolutionSettles` | src/prism_harness/runtime.py:741-761 | nothing is unresolved after a resolution if and only if the turn had no answer row yet or its answer row was the last row of the view |
| `Approvals.StuckTurn` | src/prism_harness/runtime.py:741-757 | a thread where that condition fails: an answered turn, a later user row, and a call only the present mode gates stay unresolved however they are answered |
| `ApprovalRace.StepKeepsInv` | src/prism_harness/runtime.py:628-761 | every step of racing resumers and approvers keeps: the turn in place, no resumer past resolution before it is answered, at most one resolver, no call of its work answered behind its back |
| `ApprovalRace.HandlersRunAtMostOnce` | src/prism_harness/runtime.py:628-761 | over any run of racing resumers and approvers that begin after the stop, the handler of each gated call runs at most once, only on an approved latest decision for that call's own approval id and only for a tool in the scope read under the lock |
| `ApprovalRace.SettledForGood` | src/prism_harness/runtime.py:655-703 | once any resumer is past resolution the turn's handler runs are final: a call denied or undecided then never runs on any later send, whatever is decided afterwards |
| `ApprovalRace.UngatedTurnNeverRuns` | src/prism_harness/runtime.py:525-568 | a turn that asked for nothing, such as a failed step, never has a handler run by resolution |
| `ApprovalRace.LastDecisionStands` | src/prism_harness/runtime.py:741-745 | the decision resolution acts on is the last one recorded for that approval id since the stop |
| `ApprovalRace.RecordFinishes` | src/prism_harness/runtime.py:699-703 | the row a resolver records answers every gated call that was left |
| `ApprovalRace.ReadsTurn` | src/prism_harness/runtime.py:727-757 | a reader of the stopped turn finds it, or finds it answered; its work is exactly the unanswered calls with their own approvals and the latest decisions |
| `ApprovalRace.OpenRow` | src/prism_harness/runtime.py:741-745 | while nothing else was said, a recorded tool result row lands in the turn's answer |
| `ApprovalProgress.ResumeSettles` | src/prism_harness/runtime.py:628-710 | that resumer runs the handlers of exactly the calls that run, in order, and records one row with every result and decision |
| `ApprovalProgress.NothingToSettle` | src/prism_harness/runtime.py:652-655 | a send with nothing to resolve goes on at once, whoever holds the session, and changes nothing |
| `ApprovalProgress.ApprovedCallsCanRun` | src/prism_harness/runtime.py:628-703 | from every state of the race with nobody in the session: a call approved, offered, in scope and unanswered runs when one more resumer comes, for its own approval, and the turn is then done |
| `ApprovalProgress.ApprovalStands` | src/prism_harness/runtime.py:863-889 | a decision recorded on an open turn is from then on the decision on its approval; no other decision and no answer changes |
| `Replay.TurnKeeps` | src/prism_harness/runtime.py:544-605 | a recorded turn leaves the replay sound, and complete when all its calls were answered |
| `Replay.DecisionKeeps` | src/prism_harness/runtime.py:880-889 | a recorded decision answers no call and leaves the replay sound |
| `Replay.ResolutionAnswers` | src/prism_harness/runtime.py:679-703 | a resolution of a sound thread answers every call in it, each once, whatever the mode gates |
| `Replay.NothingUnresolved` | src/prism_harness/runtime.py:750-761 | a sound thread with nothing unresolved has every call answered once, right behind its turn |
| `Replay.AnsweredIsResolved` | src/prism_harness/runtime.py:750-761 | and then nothing is unresolved under any mode |
| `Replay.PendingTells` | src/prism_harness/runtime.py:750-757 | a stopped turn has calls pending exactly until its answer row answers all of them |
| `Sessions.Session.Append` | src/prism_harness/thread.py:64-95 | one row, behind the others |
| `Sessions.Session.RecordApproval` | src/prism_harness/runtime.py:863-889 | the decision is appended as a row of its own, and nothing runs |
| `Sessions.Session.Settle` | src/prism_harness/runtime.py:679-697 | every call of the work is answered by its decision, and by what its handler did where that was called, in order; exactly the approved ones whose tool is still offered had their handler called |
| `Sessions.Session.Resolve` | src/prism_harness/runtime.py:628-710 | nothing to resolve changes nothing; otherwise one row answers the work, the offer shrinks to the scope, no handler runs a second time, and afterwards nothing is unresolved under any mode |
| `Sessions.Session.RunUngated` | src/prism_harness/runtime.py:597-602 | the calls that need nobody run in order, each for an offered tool that no gate names, and the results are what their handlers gave; one is refused if and only if a tool among them is not offered or its handler refuses, and then the handlers called are those up to the first such call |
| `Sessions.Session.Step` | src/prism_harness/runtime.py:517-626 | one response is recorded with a request for exactly the calls gated by name or by '*', each under the id drawn for it, and the offer; then its results: all refused after a failed step, none after a refused call, otherwise what the handlers of the other calls gave. It ends in a failed step, an answer, a refused call or a stop for a person exactly when that is due, and goes on otherwise |
| `Sessions.Session.Loop` | src/prism_harness/runtime.py:494-626 | a run takes the steps its responses say, one behind the other, until one ends it, its budget is spent or the model does not answer; it runs no handler of a gated tool, the replay stays well formed and only a stop leaves a stored offer |
| `Sessions.Session.Send` | src/prism_harness/runtime.py:402-452 | a send answers the stopped turn if there is one, records the prompt if there is one, and goes on with the tools that leaves; over any sequence of sends in which no ungated call is refused, every turn that called tools is followed by one row answering exactly its calls, only the last may wait, no handler runs twice, and offered and executed tools are inside the stored scope and the mode |
| `Sessions.NeverWidens` | src/prism_harness/runtime.py:413-425 | along any chain of stop, resume, stop with valid stored offers the offers decrease, each inside every mode they passed |
| `Sessions.StopOfferIsScope` | src/prism_harness/thread_rows.py:128-149 | the offer stored with a stop is the scope the next send reads, also after decisions were recorded |
| `Sessions.ResolutionLogs` | src/prism_harness/runtime.py:652-703 | what a resolution runs had not run before, and is answered by the row it records |
| `Sessions.TurnLands` | src/prism_harness/runtime.py:544-605 | a turn whose gated calls are requested and whose other calls are answered leaves a sound thread and a handler log without repeats |
| `Sessions.FailedTurnLands` | src/prism_harness/runtime.py:549-568 | a failed step's turn is answered in full by refusals and leaves nothing to resume |
| `SchemaCheck.CheckValue` | src/prism_harness/structured.py:57-113 | the checker with its growing lists reports exactly the problems of the specification, in order |
| `SchemaCheck.CheckObject` | src/prism_harness/structured.py:116-142 | missing keys, then nested problems, then undeclared keys of a closed object, as specified |
| `SchemaCheck.CheckItems` | src/prism_harness/structured.py:145-156 | the items' problems in order, as specified |
| `SchemaCheck.CheckDecides` | src/prism_harness/structured.py:57-156 | no problem is reported if and only if the document satisfies the declarative relation, at every depth and under every path |
| `SchemaMeaning.PlainCheckTells` | src/prism_harness/structured.py:57-156 | where no alternatives or enumeration pre-empt the types, exactly these problems are reported: the wrong type and nothing else; or for an object every demanded key it lacks, every undeclared key under additionalProperties false, and all that is wrong with its declared properties; or for an array all that is wrong with its items |
| `SchemaMeaning.TypesDecide` | src/prism_harness/structured.py:159-200 | the wrong type is reported if and only if the schema names at least one type, alone or in a list, and every one is a known word that is none of the value's; a word nobody knows refuses nothing |
| `SchemaMeaning.WordsMean` | src/prism_harness/structured.py:172-200 | the words of a value: an integer is a number too, a float is not an integer, and a truth value is neither |
| `SchemaMeaning.KeysDecide` | src/prism_harness/structured.py:116-142 | a key is reported as extra if and only if the schema closes itself and declares no such property, and as missing if and only if it is demanded and absent |
| `SchemaMeaning.EnumTells` | src/prism_harness/structured.py:62-70 | an enumeration accepts exactly the values that mean what one of its members means, a truth value never being a number |
| `SchemaMeaning.EqualIsSameMeaning` | src/prism_harness/structured.py:90-100 | two JSON values are equal if and only if they mean the same: numbers by value across int and float, lists by element, objects as maps without order |
| `SchemaMeaning.ProblemsAreWithin` | src/prism_harness/structured.py:57-156 | every problem is reported at its place or below it, and one about a key below |
| `SchemaCheck.CheckUnder` | src/prism_harness/structured.py:57-156 | the problems found do not depend on the path they are reported under; they only carry it as a prefix |
| `SchemaCheck.LooserAcceptsMore` | src/prism_harness/structured.py:57-156 | loosening a schema at any depth (alternatives added, required keys dropped, a closed object opened) accepts every document it accepted |
| `SchemaCheck.DroppingARequiredKey` | src/prism_harness/structured.py:120-125 | dropping a required key never refuses a document that was accepted |
| `SchemaCheck.AddingAnAlternative` | src/prism_harness/structured.py:103-113 | adding an anyOf branch anywhere among those there are never refuses a document that was accepted |
| `SchemaCheck.FirstAlternativeDecides` | src/prism_harness/structured.py:57-61 | giving a schema anyOf with one branch: a value is then accepted if and only if the branch is an object and accepts it, whatever else the schema says |
| `SchemaCheck.FirstAlternativeCanRefuse` | src/prism_harness/structured.py:57-61 | a schema without anyOf, a branch and a document it accepted and then refuses |

## Left out

- Identity discovery, PID probes and the identity cache: foreign calls; only "same identity" and "dead" are kept, as predicates.
- Parsing of owner records and payload bytes: a file holds a complete record, a partial one, or is no regular file.
- The directory listing is one step, and the counters of consecutive refusals are one nondeterministic exhaustion outcome; retry delays and deadlines are "may give up at any point".
- Fork handling, asynchronous exceptions, log and warning text.
- JSON text, SHA digests and key bytes: records are datatypes, digests are the addresses they stand for.
- Expiry of stored entries (TTL) and `forget` of the file store, and the thread's `clear` among concurrent appends.
- The index's slot, kind and lock-rank checks and its participant addressing: validation before the modelled calls.
- Floating-point rounding of clocks and costs, and leases that are not finite numbers: reals are used.
- `TaskCompletionTool`, the task mixin and canonical task JSON: they parse and print around the modelled operations.
- `RunContext.scope_under` and the child session's mode, provider and model: plumbing that spends nothing.
- Attachments, skills, doctor, events, registries and mode configuration.
- `Session._finish_run` across stale cached instances: its check reads the instance's own cache.
- Fields of stored rows that no decision reads (`additional_content`, result ids, reasoning, artifacts), and malformed values inside rows, which the code replaces by defaults before the fold.
- ApprovalRace.HandlersRunAtMostOnce: says nothing of a crash after a handler ran and before its result was recorded, nor of resumers that began before the stop, since `_loop` is not serialised; the session's lock is one holder at a time there, which DirectoryLock proves of it, and a crash of the holder frees it at once.
- Sessions.Session.Send: says nothing after a send in which an ungated call was refused, since that turn is left without its results; the second, locked read of the unresolved turn is modelled in ApprovalRace, where it can differ from the first.
- Sessions.Session.Loop: what the run meets is a given finite list, behind which its budget is spent; the ledger that stops it is in Budgets.
- Results of handlers that are no strings, which are recorded as JSON text.
- SchemaCheck.CheckDecides: nested bool and int inside enum members compare as Python compares them, which the code does too; other languages' ports differ there.
