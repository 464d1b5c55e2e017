# RaleighSL: a verified model

RaleighSL is an in-memory transactional object store. This project models its transaction
machinery, and the self-contained algorithms around it, in Dafny 4.11, and proves what they are
for. `dafny verify dfyconfig.toml` checks everything.

**The transaction protocol.** `TxnMachine` is a state machine over any number of objects, object
tasks and transactions, one step for each atomic action of the program: every turn of a semaphore
operation, the gate on `pending_txn_id`, the write function, the flag, the switch, the commit, and
every turn of every loop of the commit task. Fields marked as history variables record who holds
what, what was asked for and what was done; no step looks at them. `TxnFrames` says what one step
leaves alone; `TxnLocking`, `TxnOwnership`, `TxnOutcome` and `TxnValues` are the four layers of the
invariant; `TxnTheorems` states what holds of every run; `TxnScope` proves that the scope of these
theorems is exact, and `TxnLateJoin` is a run outside it. `Calls` defines the calls on a number and
what a serial execution of them is, without any of the machinery. `Numbers` and `TxnLoops` are the number object, the intrusive atom lists and the loops
of the commit task on the heap, updated in place, their contracts stated in the functions and steps
of the protocol. `RwcSem` is the semaphore of the protocol down to single load and CAS steps,
`RwcCode` ties its fields to the 32-bit word and its masks, and `TxnTurns` proves that runs of loads
and swaps are runs of the whole turns the protocol takes. `Ticket` is the ticket lock of the
transaction manager; `TaskQueue` and `Scheduling` carry suspended tasks.

**Around it.** `MemShared`, `Compaction`, `Bucket`, `BlockSearch`, `BlockIterator` and `Balancing`
(prefix-compressed blocks of the sorted set, their bytes, balancing, search and iteration), `HashStream`,
`Words`, `Sha256`, `Sha1` and `Murmur3` (streaming hashes), `TwoLockQueue`, `Deque`, `UInts`,
`Coding`, `IpcClient`, `FieldStruct` and `IntGroup` (the wire), `Reader` (tokens and fetches across
chunks). `Common` holds what several of them use.

Scope of the run theorems of the protocol (`TxnMachine.InScope`): reader counts stay below 2^29, values
that are written stay 64-bit, no read hold spans a write release, and no task writes through a
transaction that has finished. The scope is exact: the invariant survives a step if and only if the
step is in scope, and a run keeps it in all its states if and only if all its steps are
(`TxnScope.ScopeExact`, `TxnScope.RunExact`). The last two are conditions the program needs; see below.

## Where the code falls short

Each of these but the last is stated as the exact condition under which the code does what it is for.

- A write release, and the switch from write to read, clear the reader field of the semaphore.
  Exclusion survives exactly when no thread holds a read at that moment
  (`RwcSem.WriteReleaseExact`, `RwcSem.ReadSwitchExact`); `RwcSem.ReaderLostAtWriteRelease` is a
  run in which a commit is granted beside a reader.
- `raleighsl_transaction_acquire` looks a transaction up and acquires it in two steps, and the end
  of a transaction clears the flag that refuses acquisitions. The acquisition succeeds exactly
  while COMMIT is down: before the submission, and again after the end (`TxnTheorems.JoinExact`). A
  late joiner that reads does no harm: the run theorems cover it. Its write breaks the invariant
  always and is the only write that does (`TxnScope.LateWriteExact`): one that is refused takes the
  state back from a decided transaction (`TxnScope.LateWriteRefused`), one that takes effect leaves
  the number owned by the finished transaction (`TxnScope.LateWriteTaken`), for ever, with every
  other write to it refused (`TxnScope.LateWriteForEver`, `TxnScope.LateWriteInRun`). `TxnLateJoin.LateJoinBreaksOwnership` is a run
  that ends there.
- A SHA update takes the right branch exactly when the buffered bytes plus the new ones stay below
  2^32 (`HashStream.UpdateLimit`).
- A fetch across chunks is independent of the cut exactly when the bytes are there or fewer than
  two are left (`Reader.FetchIndependent`): the failing path keeps the first chunk consumed.
- The framed client delivers everything exactly when every message is shorter than 2^24 bytes and
  the last one has content (`IpcClient.Reassembly`). A last empty frame stays in the buffer. The
  head holds 24 bits of a length that the sender does not check (`IpcClient.HeadRoundTrip`): of a
  longer message a shorter one is delivered and its other bytes are read as heads
  (`IpcClient.OversizedIsCut`; for 0x1000000 bytes, `IpcClient.SixteenMegabytesVanish`).
- A field head round-trips exactly for ids below 65536 (`Coding.FieldRoundTrip`), a variable-length
  number exactly below 2^70 (`Coding.VintRoundTrip`).
- `FieldStruct.parse` goes on with the last byte alone when a head is cut off, and goes round for
  ever if that byte is a cut-off head too. For any data this happens exactly when the walk over the
  heads, in the data or in a nested slice, comes to such an end before an exception
  (`FieldStruct.LoopsExactly`); without nested types, when the fields end in a cut-off head and the
  last byte announces bytes behind it (`FieldStruct.FlatLoops`).
- Balancing a sorted set comes to an end exactly when every live entry fits into an empty block
  (`Compaction.TerminatesExactly`).
- The search inside a block compares one byte more than an entry has when the entry begins the key
  that is looked for. A key that is not there is never found; one that is there is found exactly when
  no entry begins it whose successor has a head byte greater than the key has in that place
  (`BlockSearch.Search`, `BlockSearch.Hidden`; for the whole node `Balancing.Lookup`). With the keys
  "a" and "a\x10" the second is not found (`BlockSearch.SecondKeyIsHidden`).
- The iterator over a block copies the shared bytes of a key to behind those of the key before. It
  delivers the entries exactly when no two neighbours share more than 128 bytes in sum
  (`BlockIterator.ReadAll`, `BlockIterator.Overruns`); three keys of at most 66 bytes are enough for
  the copy to leave its buffer (`BlockIterator.SharedTwiceOverruns`).
- A standalone pop on a deque is right exactly when the deque has content or nothing is pending at
  the other end (`DequeObject.Deque.PopAndCommit`); otherwise it takes a value that an open
  transaction has pushed there.
- A rollback on a deque finds the end of an atom by comparing transaction ids. For a transaction that
  owns both ends it is right exactly when the front atom comes first or nothing was pushed at the back;
  otherwise the values pushed at the back are committed (`DequeObject.Deque.EndBoth`).
- A pop of a transaction at a free end of a deque takes the end without adding its atom to the
  transaction. An owned end can become free again exactly when its atom is listed
  (`DequeObject.FreedExactly`), so this one is locked for everybody else for ever
  (`DequeObject.PopTakesForEver`).
- A commit of a deque finds its removal cursors exactly when they have not crossed
  (`DequeObject.Deque.Commit`); otherwise the loop for the back runs out of entries.
- Ticket numbers are distinguishable exactly up to 65536 outstanding ones (`Ticket.CollisionExactly`),
  and the ticket lock keeps its invariant exactly that far (`Ticket.RunExact`); with 65537 two threads
  can be inside (`Ticket.TwoInside`).
- `z_atomic_queue_alloc` leaves the link of the dummy node as it was in memory. Order, emptiness
  and safe access hold in every run exactly when that link happens to be null
  (`TwoLockQueue.FirstInFirstOut`, `TwoLockQueue.EmptyExactly`, `TwoLockQueue.NoDanglingAccess`).
  Otherwise the first pop of the empty queue follows it outside all nodes (`TwoLockQueue.WildPop`),
  or hands out a value before it is pushed (`TwoLockQueue.PoppedBeforePushed`); a dummy node linked
  to itself is passed as if it had been pushed (`TwoLockQueue.SelfLinked`).
- `deque.c` assigns the owner of an end inside the argument of a log macro as well as after it;
  the model makes the assignment once.

## Model

| member | source | states |
|---|---|---|
| RwcSem.UnpackIsInjective | src/zcl/threading/locking.h:92-102 | a 32-bit semaphore word is determined by its reader field and its three flags |
| RwcSem.CodeCounts | src/zcl/threading/locking.c:98-117 | what adding and subtracting one does to the fields, with carry and borrow into the flags |
| RwcSem.CodeAcquireRead | src/zcl/threading/locking.c:98-108 | a read is refused on the COMMIT flag and otherwise expects a word without COMMIT and LOCK |
| RwcSem.CodeAcquireWriteTest | src/zcl/threading/locking.c:119-124 | a write is refused exactly on the COMMIT or the WRITE flag |
| RwcSem.CodeAcquireWrite | src/zcl/threading/locking.c:125-128 | and otherwise expects a word of readers alone, to which it adds the WRITE flag |
| RwcSem.CodeSwitchToRead | src/zcl/threading/locking.c:206-227 | the write-to-read switch leaves a reader field of one, whatever it was |
| RwcSem.CodeReleaseWrite | src/zcl/threading/locking.c:131-138 | the release mask clears the readers together with the WRITE bit and keeps COMMIT and LOCK |
| RwcSem.CodeCommits | src/zcl/threading/locking.c:140-171 | raising, acquiring and releasing COMMIT, and the write-to-commit test, field by field |
| RwcSem.CodeLocks | src/zcl/threading/locking.c:173-204 | raising, acquiring and releasing LOCK, field by field |
| RwcCode.CodeIsBody | src/zcl/threading/locking.c:98-227 | for every operation and every 32-bit word, what masks and 32-bit arithmetic make of the word is what the machine makes of its fields |
| RwcCode.FieldsInjective | src/zcl/threading/locking.h:92-102 | words with the same reader number and flags are the same, so a compare-and-swap compares fields |
| RwcSem.Preserved | src/zcl/threading/locking.c:98-227 | every load or CAS step of any thread in scope keeps: readers counted, at most one exclusive holder, WRITE set exactly then |
| RwcSem.Safety | src/zcl/threading/locking.c:98-227 | in every state of every run in scope the invariant holds and a commit or lock holder has no reader beside it |
| RwcSem.ReadsWaitForCommitAndLock | src/zcl/threading/locking.c:98-108 | in any state, a read is granted only while neither COMMIT nor LOCK is raised |
| RwcSem.WriteReleaseExact | src/zcl/threading/locking.c:131-138 | a write release keeps the invariant if and only if nobody holds a read |
| RwcSem.ReadSwitchExact | src/zcl/threading/locking.c:206-215 | a write-to-read switch keeps the invariant if and only if nobody holds a read |
| RwcSem.ReaderLostAtWriteRelease | src/zcl/threading/locking.c:131-162 | a run out of scope in which a commit is granted while a reader still reads |
| TxnTurns.SwapIsOneTurn | src/zcl/threading/locking.c:98-227 | a successful swap has the effect of one undisturbed turn on the word of that moment, however old the value the thread had loaded |
| TxnTurns.RefusalIsOneTurn | src/zcl/threading/locking.c:98-227 | a refusal is the answer of one turn on the word loaded last, and changes nothing |
| TxnTurns.OtherwiseNothing | src/zcl/threading/locking.c:98-227 | a load, or a swap that fails, leaves the word and the hold as they are |
| TxnTurns.RunRefines | src/zcl/threading/locking.c:98-227 | every run of loads and swaps of any threads is, in word and holds, a run of whole turns taken one after the other |
| TxnTurns.SeenWasThere | src/zcl/threading/locking.c:98-227 | the word an operation decides on was the word of the semaphore while the thread was in that operation |
| Calls.RepeatsByObject | src/raleighsl/objects/number/number.c:52-187 | a call sequence that is faithful on every object repeats serially on the whole store, with the same replies |
| Calls.StoreByObject | src/raleighsl/objects/number/number.c:52-187 | the store after a serial execution is, object by object, what the calls on that object make of zero |
| Calls.ValueAfterConcat | src/raleighsl/objects/number/number.c:52-187 | value and replies of a sequence of calls compose over its parts |
| Numbers.Number.Set | src/raleighsl/objects/number/number.c:52-74 | in place: error, value, owner and atom list are those of the protocol's write step |
| Numbers.Number.Cas | src/raleighsl/objects/number/number.c:76-104 | in place: as for set, and the current value is reported also when the comparison fails |
| Numbers.Number.Add | src/raleighsl/objects/number/number.c:106-130 | in place: as for set, and the new value is reported |
| Numbers.Number.Mul | src/raleighsl/objects/number/number.c:132-156 | in place: as for set, and the new value is reported |
| Numbers.Number.Div | src/raleighsl/objects/number/number.c:158-187 | in place: quotient truncated toward zero with its remainder; a zero divisor is reported before a foreign owner |
| Numbers.Number.Get | src/raleighsl/objects/number/number.c:32-47 | the owner sees the pending value, anybody else the committed one |
| Numbers.Number.Apply | src/raleighsl/objects/number/number.c:217-225 | in place: the pending value is committed and the owner cleared |
| Numbers.Number.Revert | src/raleighsl/objects/number/number.c:227-235 | in place: the committed value is restored and the owner cleared |
| Numbers.Number.Commit | src/raleighsl/objects/number/number.c:237-245 | in place: an unowned pending value is committed, an owned one left alone |
| Numbers.Transaction.GroupAdd | src/raleighsl/core/transaction.c:96-121 | the group list stays a finite list with one group per object; the group is found or appended last |
| Numbers.Transaction.Add | src/raleighsl/core/transaction.c:423-455 | on the heap lists this is the protocol's AddAtom; lists stay acyclic and unshared |
| Numbers.AddedAt | src/raleighsl/core/transaction.c:423-455 | appending to the group found at position k is the recursive AddAtom |
| Numbers.WriteStepIs | src/raleighsl/core/object.c:225-231 | the write step of the protocol changes number and lists as the heap methods do, and fails in the same cases |
| TxnLoops.Store.AcquireBarrier | src/raleighsl/core/transaction.c:159-182 | marks all objects and raises LOCK on all of them, or changes nothing, by whether all were free; either way what the turns of the two loops do in the protocol |
| TxnLoops.Store.ReleaseLocks | src/raleighsl/core/transaction.c:184-196 | every object of the list is unlocked and unmarked, as the turns of the loop do in the protocol |
| TxnLoops.Store.WriteLoop | src/raleighsl/core/transaction.c:250-284 | every number of the list is applied, or every one reverted, and all atom lists are empty afterwards |
| TxnLocking.InitialLockInv | src/raleighsl/core/transaction.c:126-143 | the locking invariant holds before anything happens |
| TxnLocking.LockPreserved | src/raleighsl/core/transaction.c:159-330 | every step in scope keeps: words, holders, flags, ids, cursors and the manager lock agree with all positions |
| TxnLocking.JoinedMeansEarly | src/raleighsl/core/transaction.c:540-572 | a joined operation finds its transaction before the acquisition of its own semaphore, or, having joined late, finished |
| TxnLocking.LockerIsPending | src/raleighsl/core/transaction.c:173-179 | LOCK is raised on an object only while the object carries the id of that transaction |
| TxnFrames.TaskStepMoves | src/raleighsl/core/object.c:169-261 | task steps other than a write change no list; only a commit changes numbers and history |
| TxnFrames.TxnStepMoves | src/raleighsl/core/transaction.c:205-330 | steps of the commit task outside the write loop keep owners, lists and logs; only the decision extends the history |
| TxnOwnership.OwnPreserved | src/raleighsl/objects/number/number.c:60-72 | every step in scope keeps the agreement between owners and atom lists |
| TxnOwnership.WriterIsAlone | src/raleighsl/core/object.c:225-240 | while one task may write an object, no other task has an unpublished result there |
| TxnOwnership.AtomAtCursor | src/raleighsl/objects/number/number.c:217-235 | the atom processed is the one embedded in the object, which the transaction owns and has locked |
| TxnOwnership.OwnershipExact | src/raleighsl/objects/number/number.c:60-72 | an owner is a transaction exactly when the atom occurs in its lists, once, before it has been applied |
| TxnOutcome.OutPreserved | src/raleighsl/core/transaction.c:250-322 | every step in scope keeps: state word, failures, request, choice, effects and history slots agree |
| TxnOutcome.AllOrNothing | src/raleighsl/core/transaction.c:250-322 | a decided transaction is COMMITTED if and only if asked to and without failed write; effects are one apply, or one revert, per object in list order |
| TxnOutcome.HistoryExact | src/raleighsl/core/transaction.c:313-322 | an event of the history is transaction t exactly when t is COMMITTED with that slot |
| TxnValues.ValPreserved | src/raleighsl/objects/number/number.c:52-245 | every step in scope keeps: committed values replay the history, pending ones add the owner's calls, readings were right |
| TxnValues.BeforeWrite | src/raleighsl/objects/number/number.c:52-187 | what a write starts from is the committed value, or the transaction's own pending value |
| TxnValues.DecidedObject | src/raleighsl/core/transaction.c:313-322 | at the decision the block of the transaction turns its pending values into committed ones and moves no other |
| TxnValues.CommitLoopIdle | src/raleighsl/core/transaction.c:297-310 | the commit loop of a transaction changes no number |
| TxnValues.ReaderSees | src/raleighsl/objects/number/number.c:32-47 | a reader gets the replay of the history, with its own transaction's calls on top |
| TxnTheorems.Reached | src/raleighsl/core/transaction.c:205-330 | every state of every run in scope satisfies all layers of the invariant |
| TxnTheorems.SerialReplay | src/raleighsl/objects/number/number.c:52-245 | committed values are those of a serial run from zero of standalone writes and whole COMMITTED transactions in completion order, each call with the reply it gave |
| TxnTheorems.PendingValue | src/raleighsl/objects/number/number.c:60-72 | the pending value of an owned number is the history followed by the owner's calls |
| TxnTheorems.ReadIsSerial | src/raleighsl/core/object.c:190-224 | each read returns the serial value at that moment, with its own transaction's calls and nobody else's |
| TxnTheorems.AtomicVisibility | src/raleighsl/core/object.c:190-224 | once a read returns a value published by t, every later read of any object t wrote returns t's value or a newer one |
| TxnTheorems.Barrier | src/raleighsl/core/transaction.c:159-248 | past the barrier: disjoint objects carrying the id, a lock cursor that splits the list, all objects held alone during the write loop |
| TxnTheorems.MarkingUnderManager | src/raleighsl/core/transaction.c:159-196 | an id is on an object only past the barrier or while its transaction holds the manager lock |
| TxnTheorems.Ownership | src/raleighsl/objects/number/number.c:60-72 | in every reachable state the atom of a number occurs in t's lists once if t owns it and not at all otherwise; no number stays owned after t |
| TxnTheorems.AssertionsHold | src/raleighsl/core/transaction.c:188-190 | the assertions on the released object and on the applied atom hold in every reachable state |
| TxnTheorems.DecidedExactly | src/raleighsl/core/transaction.c:250-322 | in every reachable state a decided transaction went all one way, COMMITTED if and only if asked to and without failed write, and the history says so |
| TxnTheorems.FrozenForGood | src/raleighsl/core/transaction.c:332-366 | from the flag up to the end nobody joins; from the acquisition on calls and object list are final; from the decision on so are state and effects |
| TxnTheorems.JoinExact | src/raleighsl/core/transaction.c:540-561 | an acquisition succeeds exactly while COMMIT is down: before submission or after the end |
| TxnTheorems.AcquireLasts | src/raleighsl/core/transaction.c:213-219 | the commit task gets past its own semaphore exactly when every joined operation has released |
| TxnTheorems.FlagsApart | src/zcl/threading/locking.c:140-204 | COMMIT and LOCK are never raised together on an object, so neither acquisition, each wanting its flag alone, is shut out by the other |
| TxnTheorems.BothFlagsStay | src/zcl/threading/locking.c:140-204 | a word with both flags and nobody holding would stay for ever: every operation but a release refuses, spins or leaves it |
| TxnScope.ScopeExact | src/raleighsl/core/transaction.c:159-330 | from a state that satisfies the invariant, the next one does if and only if the step is in scope |
| TxnScope.RunExact | src/raleighsl/core/transaction.c:159-330 | a run keeps the invariant in all its states if and only if all its steps are in scope |
| TxnScope.LateWriteExact | src/raleighsl/core/transaction.c:540-572 | the invariant survives a write exactly when its transaction has not finished |
| TxnScope.LateWriteTaken | src/raleighsl/objects/number/number.c:60-72 | a late write that takes effect makes a finished transaction the owner |
| TxnScope.LateWriteRefused | src/raleighsl/core/object.c:225-240 | a late write that is refused sets a decided transaction back to DONT_COMMIT |
| TxnScope.LateWriteForEver | src/raleighsl/objects/number/number.c:52-187 | after a late write that took effect the number belongs to the finished transaction in every later state of every run, and every write to it by anybody else is refused |
| TxnScope.LateWriteInRun | src/raleighsl/objects/number/number.c:52-187 | the same in every run from the start whose steps up to the late write are in scope |
| TxnScope.StuckForEver | src/raleighsl/objects/number/number.c:52-187 | a number owned by a finished transaction, with no atom of it in any other list, stays so over every step |
| TxnLateJoin.LateJoinBreaksOwnership | src/raleighsl/core/transaction.c:540-561 | a run out of scope ends with a number owned by a finished transaction |
| TaskQueue.Queue.Push | src/zcl/core/global/task.c:69-86 | in place on the chain: the task is the last one |
| TaskQueue.Queue.Pop | src/zcl/core/global/task.c:88-103 | in place on the chain: the oldest task, unlinked, the order of the others kept |
| TaskQueue.Queue.Drain | src/zcl/core/global/task.c:105-109 | the whole chain in order, and an empty queue |
| TaskQueue.Tree.Push | src/zcl/core/global/task.c:121-127 | every task of a chain is filed under its time, none of the others disturbed, though filing overwrites the links |
| TaskQueue.Tree.Pop | src/zcl/core/global/task.c:129-134 | the task with the least submission time |
| Scheduling.NoCollision | src/zcl/core/global/task.c:121-127 | no task about to be filed finds its time taken in the pending tree |
| Scheduling.Filed | src/zcl/core/global/global.c:311-341 | filing the tasks in hand loses none and replaces none |
| Scheduling.Preserved | src/zcl/core/global/global.c:60-84 | every step keeps places exact, queues without repetition, times unique and the ready queue in order of time |
| Scheduling.TaskConservation | src/zcl/core/global/task.c:69-225 | in every reachable state a task is in some place exactly if it is submitted and unfinished, and in one only |
| Scheduling.OldestFirst | src/zcl/core/global/global.c:60-84 | a worker takes the pending task submitted first, else the ready task submitted first |
| Ticket.Preserved | src/zcl/threading/ticket.c:24-37 | every step with fewer than 65536 outstanding tickets keeps counters, tickets and turn in agreement |
| Ticket.MutualExclusion | src/zcl/threading/ticket.c:24-37 | across any number of wraps: at most one holder, distinct sixteen-bit numbers, entry in ticket order without gap |
| Ticket.RunExact | src/zcl/threading/ticket.c:24-37 | a run keeps the invariant in all its states if and only if no ticket is taken while 65536 are outstanding |
| Ticket.TwoInside | src/zcl/threading/ticket.c:24-37 | a run in which 65537 tickets are outstanding and two threads are inside |
| Ticket.CollisionExactly | src/zcl/threading/ticket.c:24-33 | two outstanding tickets look alike if and only if more than 65536 are outstanding |
| TwoLockQueue.Preserved | src/zcl/system/atomic-lock.c:154-188 | every step of pushers and poppers keeps the list, its values, the tail and everybody's private nodes right |
| TwoLockQueue.FirstInFirstOut | src/zcl/system/atomic-lock.c:118-188 | in every state of every run popped values are a prefix of the non-null values pushed in link order and the list holds exactly the others, if and only if the dummy node starts with a null link |
| TwoLockQueue.EmptyExactly | src/zcl/system/atomic-lock.c:118-183 | a pop finds nothing exactly when every linked node was passed, in every run if and only if the dummy node starts with a null link |
| TwoLockQueue.NoDanglingAccess | src/zcl/system/atomic-lock.c:118-188 | no thread follows a pointer to a freed node, with memory reused at will, and no node is freed twice, in every run if and only if the dummy node starts with a null link |
| TwoLockQueue.WildPop | src/zcl/system/atomic-lock.c:45-55 | a run in which the first pop takes the link the allocator left for a node |
| TwoLockQueue.PoppedBeforePushed | src/zcl/system/atomic-lock.c:154-188 | a run from such a link in which a value is popped before it is pushed |
| MemShared.MemSharedPrefix | src/zcl/string/memshared.c:18-53 | the word loop and the fall-through switch compute the longest common prefix |
| MemShared.Shared | src/zcl/string/memshared.c:18-53 | the prefixes of that length agree and the next bytes, if any, differ |
| MemShared.SliceCompareIsOrder | src/zcl/buffers/byteslice.c:25-30 | the comparison of slices is lexicographic order: its sign decides less, equal and greater |
| MemShared.LessTransitive | src/zcl/buffers/byteslice.c:25-30 | that order is transitive |
| Compaction.Merger.Next | src/zcl/tools/map/map-merger.c:38-78 | the least key of the stacked iterators with the entry of the first that has it; all others stay as they were |
| Compaction.Merger.NextLive | src/raleighsl/objects/sset/sset.c:697-706 | the same for live entries: delete markers fall out and hide what lies below them |
| Compaction.SkipHidden | src/zcl/tools/map/map-merger.c:69-73 | dropping an equal entry of a later iterator changes no lookup |
| Compaction.KPrefix.SharedWith | src/raleighsl/objects/sset/sset.c:717-727 | the shared length with the previous key, and the buffer then holds the new key |
| Compaction.PackThenDecode | src/zcl/tools/bucket/bucket.c:82-103 | reading a prefix-compressed entry gives back key and value |
| Balancing.FillBlock | src/raleighsl/objects/sset/sset.c:748-762 | in place on the bytes of a new block: it takes entries in order until one does not fit; it is not empty and not too large, and is the packing of what it holds |
| Balancing.Balance | src/raleighsl/objects/sset/sset.c:732-780 | the new blocks, written as bytes, hold, decoded and sorted, for every key exactly the live entry of the node before; blocks are non-empty, within capacity and maximal |
| Balancing.BalanceAndFetch | src/zcl/tools/bucket/bucket-vprefix.c:115-186 | the bytes that balancing wrote, fetched back block by block and decoded, are exactly the live entries in order |
| Compaction.RangesAscend | src/raleighsl/objects/sset/sset.c:732-780 | the last key of a block is below the first key of every later block |
| Compaction.FloorFinds | src/raleighsl/objects/sset/sset.c:533-559 | lookup in the block found by first key equals lookup in all blocks |
| Compaction.LookupAfterBalance | src/raleighsl/objects/sset/sset.c:533-559 | after balancing, the decoded block that the floor search finds answers for every key, present or not, as the node did before |
| Balancing.Lookup | src/raleighsl/objects/sset/sset.c:510-559 | after balancing, floor and block search on the bytes find a key, with its value, if and only if it is live and not hidden in its block |
| Compaction.BlockIsBlockLength | src/raleighsl/objects/sset/sset.c:748-762 | the entries a block takes, up to the first that does not fit, are as many as the count used for termination |
| Compaction.RoundsAreBlocks | src/raleighsl/objects/sset/sset.c:747-763 | the rounds counted for termination are, one by one, the blocks that balancing writes |
| Compaction.TerminatesExactly | src/raleighsl/objects/sset/sset.c:747-763 | the outer loop ends if and only if every live entry fits into an empty block |
| Bucket.ItemRoundTrip | src/zcl/tools/bucket/bucket-vprefix.c:115-140 | the head byte and the three lengths of an entry read back, whatever follows |
| Bucket.AreasUsed | src/zcl/tools/bucket/bucket-vprefix.c:142-147 | key side and value side of the entries take exactly the room that balancing counts |
| Bucket.Block.Append | src/zcl/tools/bucket/bucket-vprefix.c:160-186 | in place on the bytes: refused without effect if and only if the entry does not fit, else keys grow up and values grow down by it |
| Bucket.Block.Fetch | src/zcl/tools/bucket/bucket-vprefix.c:115-140 | read in turn from the bytes, the entries are those appended, in order, and then none |
| BlockSearch.BucketSearch | src/zcl/tools/bucket/bucket.c:23-65 | on the bytes of a block: the key is found, with its value, if and only if it is there and no entry that begins it has a greater byte behind it |
| BlockSearch.Search | src/zcl/tools/bucket/bucket.c:67-77 | on a block as balancing writes it: found, with the value of the map, if and only if the key is there and not hidden by the head byte behind an entry that begins it |
| BlockSearch.NothingHidden | src/zcl/tools/bucket/bucket.c:23-65 | where no key begins another the search finds every key |
| BlockSearch.SecondKeyIsHidden | src/zcl/tools/bucket/bucket.c:48-53 | two keys of which the search does not find the second |
| BlockIterator.Iterator.Next | src/zcl/tools/bucket/bucket.c:82-103 | in place on the key buffer: the next entry with its full key, if and only if the copy stays in the buffer |
| BlockIterator.ReadAll | src/zcl/tools/bucket/bucket.c:82-121 | reading a block through the iterator gives the decoded entries exactly when no copy leaves the buffer |
| BlockIterator.SharedTwiceOverruns | src/zcl/tools/bucket/bucket.c:86-93 | three keys within the supported length for which the copy leaves the buffer |
| HashStream.CountsAdd | src/zcl/hash/sha2.c:101-104 | the two count words hold eight times the bytes modulo 2^64 after every update |
| HashStream.PositionFromCount | src/zcl/hash/sha2.c:101-101 | the buffer position is read off the count correctly, also after it has wrapped |
| HashStream.AbsorbMore | src/zcl/hash/sha2.c:94-117 | absorbing a concatenation is absorbing its second part behind the tail of the first |
| HashStream.ZeroCountLeast | src/zcl/hash/sha2.c:127-130 | the padding loop stops after exactly the zeros of section 5.1.1 of FIPS 180-3 |
| HashStream.PadLength | src/zcl/hash/sha2.c:128-131 | the padded message is a whole number of blocks |
| HashStream.FinalCountIsLength | src/zcl/hash/sha2.c:123-126 | the eight bytes taken from the count words are the length in bits, most significant first |
| HashStream.UpdateLimit | src/zcl/hash/sha2.c:106-106 | the 32-bit branch test is right if and only if buffered plus new bytes stay below 2^32 |
| Sha256.ChReduced | src/zcl/hash/sha2.c:31-31 | the reduced Ch is that of the standard |
| Sha256.MajReduced | src/zcl/hash/sha2.c:32-32 | the reduced Maj is that of the standard |
| Sha256.Expand | src/zcl/hash/sha2.c:58-65 | the loops fill the message schedule of section 6.2.2 of FIPS 180-3 |
| Sha256.Transform | src/zcl/hash/sha2.c:58-79 | in place: the next intermediate hash value of section 6.2.2 |
| Sha256.Context.Update | src/zcl/hash/sha2.c:94-117 | in place: state, buffer and counts are those of all bytes fed so far |
| Sha256.Context.Final | src/zcl/hash/sha2.c:119-134 | terminates with the hash of the padded message, sections 5.1.1 and 6.2 of FIPS 180-3 |
| Sha256.Hash256Sha | src/zcl/hash/sha2.c:139-147 | the one-shot hash is that of the standard |
| Sha256.HashPieces | src/zcl/hash/hash.c:32-38 | every split of the message into updates gives the hash of the whole |
| Sha1.MacroFIsF | src/zcl/hash/sha1.c:22-27 | the logical functions of the macros are those of section 4.1.1 of FIPS 180-3 |
| Sha1.NextWord | src/zcl/hash/sha1.c:18-20 | the ring of sixteen words yields the eighty-word schedule, overwriting in place |
| Sha1.Turn | src/zcl/hash/sha1.c:22-27 | one macro call with renamed registers is one turn of section 6.1.2 with shifted ones |
| Sha1.Transform | src/zcl/hash/sha1.c:30-72 | in place: the next intermediate hash value of section 6.1.2 |
| Sha1.Context.Update | src/zcl/hash/sha1.c:85-108 | in place: state, buffer and counts are those of all bytes fed so far |
| Sha1.Context.Final | src/zcl/hash/sha1.c:110-125 | terminates with the hash of the padded message |
| Sha1.Hash160Sha | src/zcl/hash/sha1.c:130-136 | the one-shot hash is that of the standard |
| Sha1.HashPieces | src/zcl/hash/hash.c:32-38 | every split of the message into updates gives the hash of the whole |
| Words.SumOrder | src/zcl/hash/sha1.c:22-27 | the order in which the macros add gives the sum of the standard |
| Murmur3.Hash32Murmur3 | src/zcl/hash/murmur3.c:10-57 | the loop and the switch compute the hash of blocks and tail under the seed |
| Murmur3.Hash32.Update | src/zcl/hash/murmur3.c:77-111 | in place: after any update hash, tail buffer and length are those of all bytes fed |
| Murmur3.Hash32.Digest | src/zcl/hash/murmur3.c:113-138 | the streaming hash equals the one-shot hash of the concatenation under the same seed |
| Murmur3.BodyMore | src/zcl/hash/murmur3.c:77-111 | hashing a concatenation is hashing its second part behind the rest of the first |
| DequeObject.Deque.Push | src/raleighsl/objects/deque/deque.c:70-115 | in place: refused while another transaction owns the end, else the newest pending entry of that end |
| DequeObject.Deque.Pop | src/raleighsl/objects/deque/deque.c:117-199 | in place, by any transaction or none, wherever the cursors are: the newest pending entry of that end, else the next committed entry left to its cursor, else the oldest pending entry of the other end |
| DequeObject.Deque.Commit | src/raleighsl/objects/deque/deque.c:271-319 | in place, wherever the cursors are: unless they have crossed, where the loop for the back misses its cursor, what lies before a cursor goes and what is pending at a free end moves in, in push order |
| DequeObject.Deque.Revert | src/raleighsl/objects/deque/deque.c:246-269 | in place: the pending entries of the end are gone and content and other end unchanged, unless one transaction owns both ends, where the front is cleared for either atom |
| DequeObject.Deque.PushAndCommit | src/raleighsl/core/object.c:225-240 | a push followed by its commit is the push of the abstract deque |
| DequeObject.Deque.PopAndCommit | src/raleighsl/core/object.c:225-240 | a pop followed by its commit is the pop of the abstract deque, if and only if there is content or nothing pending at the other end |
| DequeObject.Deque.EndTransaction | src/raleighsl/core/transaction.c:264-310 | apply or revert followed by the commit closes the end, with its values or without |
| DequeObject.Deque.EndBoth | src/raleighsl/objects/deque/deque.c:246-269 | a transaction that owns both ends ends rightly if and only if it commits, has its front atom first, or has pushed nothing at the back |
| DequeObject.FreedExactly | src/raleighsl/objects/deque/deque.c:70-255 | an owned end can become free again if and only if the atom of the end is in the list of its transaction |
| DequeObject.PopTakesForEver | src/raleighsl/objects/deque/deque.c:144-177 | after a pop of a transaction at a free end the end stays with that transaction and refuses everybody else, whatever is done |
| DequeObject.WhileOpen | src/raleighsl/objects/deque/deque.c:70-115 | while an end is open its pushes collect, others at that end are refused, the other end goes on |
| DequeObject.PushOnlyTransaction | src/raleighsl/objects/deque/deque.c:70-319 | a push-only transaction adds its values in push order on commit and nothing on rollback, with standalone pushes at the other end interleaved |
| UInts.UintRoundTrip | src/raleigh-client/pyraleigh/raleigh/coding.py:42-64 | decoding inverts encoding, whatever follows, if and only if the value fits the length |
| UInts.UintBytesLeast | src/raleigh-client/pyraleigh/raleigh/coding.py:30-40 | the byte count is the least of at least one that holds the value |
| UInts.WriteUint | src/raleigh-client/pyraleigh/raleigh/coding.py:42-52 | the bytes of the value, least significant first |
| UInts.ReadUint | src/zcl/io/coding/coding-int.c:140-157 | the number those bytes stand for |
| Coding.ZigzagRoundTrip | src/raleigh-client/pyraleigh/raleigh/coding.py:17-18 | zigzag takes every 64-bit integer to an unsigned one and back |
| Coding.ZigzagOnto | src/raleigh-client/pyraleigh/raleigh/coding.py:17-18 | and every unsigned 64-bit number comes from one |
| Coding.WriteField | src/raleigh-client/pyraleigh/raleigh/coding.py:76-98 | the head byte, then the length and the id where they do not fit into it |
| Coding.FieldRoundTrip | src/raleigh-client/pyraleigh/raleigh/coding.py:76-126 | a field head decodes to its id and length, whatever follows, if and only if the id is below 65536 |
| Coding.FieldCut | src/raleigh-client/pyraleigh/raleigh/coding.py:100-126 | a head that is cut off anywhere is recognized as such |
| Coding.WriteVint | src/raleigh-client/pyraleigh/raleigh/coding.py:138-147 | the groups of seven bits, least significant first |
| Coding.ReadVint | src/raleigh-client/pyraleigh/raleigh/coding.py:149-160 | the value of at most ten groups, or that there are more, or that they are cut off |
| Coding.VintRoundTrip | src/raleigh-client/pyraleigh/raleigh/coding.py:138-160 | decoding gives the value and its length for values below 2^70, and fails for all others |
| IpcClient.FramedClient.Recv | src/raleigh-client/pyraleigh/raleigh/ipc_client.py:35-42 | in place: what is yielded and what stays in the buffer are those of the stream |
| IpcClient.UnframeMore | src/raleigh-client/pyraleigh/raleigh/ipc_client.py:35-42 | bytes that arrive later do not change what was delivered |
| IpcClient.CutAnywhere | src/raleigh-client/pyraleigh/raleigh/ipc_client.py:35-42 | fed in any chunks, the client delivers what it would from the whole stream and raises exactly when it would there |
| IpcClient.HeadRoundTrip | src/raleigh-client/pyraleigh/raleigh/ipc_client.py:53-75 | a head reads back as the length modulo 2^24, so as the length if and only if it is below 2^24 |
| IpcClient.OversizedIsCut | src/raleigh-client/pyraleigh/raleigh/ipc_client.py:31-75 | a message too long for its head is delivered cut, and the receiver goes on inside it |
| IpcClient.SixteenMegabytesVanish | src/raleigh-client/pyraleigh/raleigh/ipc_client.py:31-75 | a message of 2^24 bytes arrives as an empty frame, and the client raises on its first byte unless that is zero |
| IpcClient.FramesRoundTrip | src/raleigh-client/pyraleigh/raleigh/ipc_client.py:31-75 | what comes out of any frames: all in order but for a last empty one, up to the first message that is too long and comes out cut |
| IpcClient.Reassembly | src/raleigh-client/pyraleigh/raleigh/ipc_client.py:31-75 | a stream cut at any points delivers all messages in order if and only if each is below 2^24 bytes and the last is not empty; the first too long one comes out shorter |
| IpcClient.RpcRoundTrip | src/raleigh-client/pyraleigh/raleigh/ipc_client.py:104-119 | request id, message type and data come back from an encoded call if and only if both numbers are of 64 bits |
| FieldStruct.Parse | src/raleigh-client/pyraleigh/raleigh/ipc_client.py:139-157 | the loop with its nested calls, exceptions and endless round, on any data, down to what append of a bytearray accepts |
| FieldStruct.ParseRoundTrip | src/raleigh-client/pyraleigh/raleigh/ipc_client.py:139-157 | parsing an encoded message gives its dictionary and goes on with whatever follows |
| FieldStruct.MessageRoundTrip | src/raleigh-client/pyraleigh/raleigh/ipc_client.py:139-157 | a nested message of any depth parses to its dictionary: unknown fields skipped, lists in order |
| FieldStruct.MeaningExists | src/raleigh-client/pyraleigh/raleigh/ipc_client.py:139-157 | under a schema that uses a name for lists only or never, a well-typed message always has a dictionary |
| FieldStruct.LastByteLoops | src/raleigh-client/pyraleigh/raleigh/ipc_client.py:139-157 | a stray last byte makes parse go round for ever if and only if it announces bytes that are not there |
| FieldStruct.WalkTells | src/raleigh-client/pyraleigh/raleigh/ipc_client.py:139-157 | for any data, schema and dictionary, a walk over the heads without values tells whether parse ends with a dictionary or never, as far as no exception over list names comes first |
| FieldStruct.LoopsExactly | src/raleigh-client/pyraleigh/raleigh/ipc_client.py:139-157 | parse never ends if and only if that walk meets a cut-off head whose data end in another, nested slices included, and nothing raises first; if no name is both list and not, the walk alone decides both this and success |
| FieldStruct.FlatLoops | src/raleigh-client/pyraleigh/raleigh/ipc_client.py:139-157 | without nested types parse never ends exactly when the fields end in a cut-off head and the last byte announces a length or an id |
| IntGroup.Encode4Int | src/zcl/io/coding/coding-int-group.c:28-44 | in place: head byte and four numbers at the front of the buffer, nothing else touched |
| IntGroup.Encode3Int | src/zcl/io/coding/coding-int-group.c:70-82 | in place: head byte and three numbers at the front of the buffer, nothing else touched |
| IntGroup.Decode4Int | src/zcl/io/coding/coding-int-group.c:46-58 | four numbers and their total length |
| IntGroup.Decode3Int | src/zcl/io/coding/coding-int-group.c:84-93 | three numbers and their total length |
| IntGroup.RoundTrip4 | src/zcl/io/coding/coding-int-group.c:20-58 | reading a group of four gives the numbers and its length, whatever follows |
| IntGroup.RoundTrip3 | src/zcl/io/coding/coding-int-group.c:63-93 | the same for two 64-bit numbers and one of 32 bits |
| Reader.IovecReader.Next | src/zcl/io/buffers/iovec.c:22-45 | in place: a non-empty piece of what remains, unless nothing does |
| Reader.IovecReader.Backup | src/zcl/io/buffers/iovec.c:47-51 | in place: the end of the last piece remains again |
| Reader.MemTokStep | src/zcl/buffers/reader.c:79-110 | one chunk takes the scan of the string on by exactly its bytes |
| Reader.Tokenize | src/zcl/buffers/reader.c:136-174 | token, bytes read and remaining stream are those of the joined chunks |
| Reader.ScanShape | src/zcl/buffers/reader.c:79-110 | the token is a run without separators, behind separators only, ended by one or by the end |
| Reader.Skip | src/zcl/buffers/reader.c:179-189 | succeeds if and only if the bytes are there, and leaves what the joined chunks leave |
| Reader.FetchFallback | src/zcl/buffers/reader.c:191-226 | the bytes asked for and the rest, or failure with the first chunk consumed |
| Reader.FetchIndependent | src/zcl/buffers/reader.c:191-226 | a fetch is independent of the cut if and only if the bytes are there or fewer than two are left |

## Left out

- Concurrency in the heap model: the interleaved protocol is modelled on values (maps of objects,
  tasks and transactions); `Numbers` and `TxnLoops` show the same operations on the heap, run by
  one thread at a time.
- The distance between load and swap inside the protocol: `TxnMachine` takes one turn of a CAS
  loop as one step. `TxnTurns.RunRefines` justifies that for each semaphore by itself; the two are
  not put together into one machine.
- The OPEN state of an object task, creation and unlinking of objects, and read functions that
  yield: the protocol starts with open objects and readers that finish.
- Liveness and wake-ups: which waiting task runs next is left open, and a release of a
  transaction that drains no queue is only shown to be safe.
- The error code passed to the notification of a commit that became a rollback.
- Transactions on sorted sets, and replacing or removing an atom of a transaction.
- The abstract deque has no pops inside transactions, no push of one transaction at both ends while it
  runs, and no second pop before a commit: `DequeObject.Deque.Pop` and `DequeObject.Deque.Commit` say
  what these do to lists and cursors.
- The checksum and the other fields of a block head, and the delete bit of an entry once set: blocks
  are as balancing writes them.
- The balanced tree under the pending tasks and under the nodes of a set: both are ordered maps.
- Tree entries replaced under an equal key: shown not to happen for pending tasks.
- Memory: allocation failures, reference counts and the allocator. In `TwoLockQueue` freed nodes
  may be handed out again at once.
- The memory model below single loads, swaps and pointer stores.
- `z_v_reader_search`, the direct `fetch` of the iovec reader, and the typed decoders over it.
- Sockets, timing and logging. The frame client is fed by a `Read` that appends.
- Submission times beyond 2^64 and history positions: both are unbounded numbers.
- The expression and SQL evaluators, servers, monitor, benchmarks and build scripts.
