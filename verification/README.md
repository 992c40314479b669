# A model of the mdbx package's native layer

`mdbx` is an R package around libmdbx, a memory-mapped key-value store that must never be called on
the wrong object: using a transaction after its environment was closed is undefined behaviour, a
failed assertion leaves an environment that must not be touched again, and a handle inherited
across `fork()` belongs to somebody else. This project models how the package keeps to those rules,
and what it promises on top of them, and proves both in Dafny 4.11. `dafny verify dfyconfig.toml`
checks everything.

## Map

| files | subject |
|---|---|
| `Native.dfy`, `History.dfy` | libmdbx as a ledger of the handles it gave out, which calls it allows, and what "no forbidden call" means for a call history |
| `Handles.dfy`, `Invariant.dfy`, `Preservation.dfy` | the handle lifecycle as functions on the memory of one process, its invariant, and that every step keeps it |
| `Safety.dfy`, `Cleanup.dfy`, `Bracket.dfy` | the main results over whole runs: safety, conservation, confluence of the finalizers, recovery from a panic, `mdbx_with_write()` |
| `Answers.dfy`, `Reports.dfy` | what each entry point answers, calls and leaves alone, told by the native ledger; what is reported and refused over whole runs, told by the history of calls |
| `Lifecycle.dfy` | the same lifecycle as classes changed in place, proved equal to `Handles.dfy` step by step |
| `Guard.dfy` | the panic boundary: nested guarded calls, jumps, poison callbacks, the bounded copy |
| `Bytes.dfy`, `Tables.dfy`, `Scan.dfy`, `Listing.dfy`, `Ids.dfy` | key order, the cursor scan against the reference model's listing, chunked walks, the model's own spelling of keys |
| `ReferenceModel.dfy`, `DbiCache.dfy`, `Counters.dfy`, `Reservations.dfy` | named databases and sequence counters: the per-transaction handle cache and the double arithmetic against the reference model |
| `Doubles.dfy`, `Cache.dfy`, `CacheOrder.dfy`, `CacheStore.dfy` | the disk cache of `vignettes/articles/cache.Rmd` |
| `Flags.dfy` | the flag vocabulary and the bitmask |

Two layers describe the lifecycle. `Handles.dfy` gives each entry point as a function from a
process's memory to a process's memory; the theorems are about those. `Lifecycle.dfy` has the
handles, vectors and back-pointers themselves, and every method's contract says that the memory it
leaves is the one the function gives, and that no pointer in it leads to a deleted handle.

## What is assumed of libmdbx

libmdbx is an oracle: every guarded call may return any status or panic, and the answer may depend
on everything called before. Nothing is assumed about it beyond the following.

- A commit that returns anything but `MDBX_THREAD_MISMATCH` ends the transaction, a commit that
  returns success publishes the transaction's view, and an environment close that returns ends the
  environment whatever it reports.
- An abort that returns ends the transaction. `OwningThread` says that an abort never reports a
  thread mismatch, since R has one thread; `Cleanup.FinalizerTrustsTheThread` shows that the
  finalizers need exactly this.
- `mdbx_txn_begin()` that does not return success begins nothing, and `mdbx_env_create()` that does
  not return success (or panics) creates nothing. Creation and the steps from configuring to opening
  are two calls here and one guarded region in the source; native environments and transactions are
  numbers never used twice.
- A child process has a pid that none of its ancestors has.
- `MDBX_NOTFOUND` from a lookup or a cursor means there is no such record, and `MDBX_KEYEXIST` that
  there is one.
- Opening the name of a plain record, or addressing the record of a named database through the main
  one, is refused (`MDBX_INCOMPATIBLE`) and changes nothing. Deleting a database frees its number;
  opening gives an unused number or `MDBX_DBS_FULL`.
- A put, delete, drop or sequence call that fails with any other status leaves the transaction's
  view as it was.

Reading where an environment's page lists start (`mdbx_r_env_heap_roots()`) is not a guarded call.
Each read is recorded with its place among the guarded calls, and the safety theorems cover it. How
often it happens may depend on the order of finalizers; `Cleanup.SameButPeeks` leaves only that out.

## What turned out to hold only on a condition

- `Cleanup.LookingOnceNeedsOne`: `detach_txns()` decides `usable` once. With two registered
  transactions a panic in the first abort would be followed by a forbidden call; with one it cannot
  be, and the invariant keeps it at one.
- `Doubles.ByteOrderNeedsNoSign`: the encoding orders doubles only while there is no sign bit.
- `CacheOrder.ExpiryMissesIff`: so `cache_expire()` removes fewer records than are due and allowed
  exactly when a deadline with a sign bit has passed, another deadline has not, and the passed ones
  without a sign bit do not use up the limit. `CacheStore.OverdueStays` is such a run.
- `CacheOrder.EvictionTakesOldest`: a record that stays was read before one that goes exactly if its
  access time has a sign bit and is another time.
- `Listing.ChunksCompleteIff`: walking in chunks of one record stops after the first.
- `DbiCache.EmptyingMainAgreesIff`: emptying main keeps the cached handles right exactly if there are
  none for named databases.
- `Reservations.HistoriesRepeatIff`: a number is handed out twice exactly when there are
  reservations on both sides of an emptying or deletion.
- `Flags.NeverBothIff`: one sync mode is never reported as two exactly because of the table's order.
- `Ids.IdsInvert`: `raw_id()` inverts `id_raw()` exactly on text it could have written.

## Model

| member | source | states |
|---|---|---|
| Safety.EveryRunIsSafe | src/r_mdbx.cpp:761-780 | for every run of opens, closes, begins, ends, operations, finalizers, panics and forks, under any native answers: a close comes only after every transaction begun on the environment was ended; after a panic or close nothing more is called on it; only the creating process calls anything on it; two transactions never overlap; the unguarded reads of list starts keep to the same rules; and no call or read was ever a forbidden one |
| Safety.LegalRun | src/r_mdbx.cpp:883-935 | every run of every process makes only the calls and reads the native ledger allows, each at its place in the history |
| Safety.LedgerInduction | src/r_mdbx.cpp:761-827 | a property of the ledger that every single native call keeps is kept by every step of the package |
| Safety.TransactionsAreConserved | src/r_mdbx.cpp:797-827 | after any run each native transaction ever begun is counted exactly once among: held by a live handle, ended by libmdbx, recorded in the abandoned list |
| Safety.EnvironmentsAreConserved | src/r_mdbx.cpp:709-751 | the same for native environments, a close that panicked being the one way to lose the pointer |
| Safety.GivenUpForCause | src/r_mdbx.cpp:143-156 | a transaction in the abandoned list was not ended, and its environment is broken, or usable and another process's |
| Safety.GivenUpForGood | src/r_mdbx.cpp:709-780 | the environment of a transaction ever given up is never natively closed, before or after, however the run continues |
| Safety.ReportedUsableIffAccepted | src/r_mdbx.cpp:1293-1340 | the state reads "active" or "failed" exactly when `txn_from_sexp` accepts the handle, and then libmdbx may be called on it |
| Safety.OpensStayUnique | src/r_mdbx.cpp:1023-1032 | after any run, forks included, no two registered environments share key and pid |
| History.ClosedAfterItsTransactions | src/r_mdbx.cpp:1103-1119 | in a legal call history every begin on an environment is followed by its end before the environment's close |
| History.SilentAfterPanicOrClose | src/r_mdbx.cpp:730-736 | in a legal call history no call concerns an environment after a panic in a call that concerned it, or after its close |
| History.OnlyItsOwnProcess | src/r_mdbx.cpp:717-728 | every call that concerns an environment is made by the process that created it |
| History.NothingAfterTheEnd | src/r_mdbx.cpp:1207-1230 | once a call ended a transaction, no later call names it |
| History.OneTransactionAtATime | src/r_mdbx.cpp:1175-1188 | between two begins on one environment lies the end of the first |
| History.LifeOfTxn | src/r_mdbx.h:89-107 | from its begin on, the ledger has a transaction running exactly while no call has ended it |
| History.StatusIs | src/r_mdbx.cpp:730-751 | an environment is sound until a call that concerns it panics or closes it, and broken exactly if one other than its close panicked |
| Invariant.InvNoDangling | src/r_mdbx.h:59-91 | under the invariant every pointer in the registries leads to a handle that exists |
| Invariant.IdleWhenUnlinked | src/r_mdbx.cpp:1111-1117 | if no handle is registered on a usable environment, no native transaction runs on it |
| Invariant.KeepUnlinked | src/r_mdbx.cpp:689-703 | unlinking an ended or given-up transaction keeps the invariant: linked, registered, faithful to the ledger, counted once |
| Invariant.KeepDropped | src/r_mdbx.cpp:709-751 | dropping a closed or abandoned environment keeps the invariant |
| Invariant.KeepBegan | src/r_mdbx.cpp:861-879 | registering a transaction just begun keeps the invariant |
| Invariant.KeepQuiet | src/r_mdbx.cpp:433-437 | a call that ends and begins nothing keeps the invariant, a panic in it included |
| Invariant.KeepDeleteEnv | src/r_mdbx.cpp:782-795 | deleting a handle that holds no environment keeps the invariant |
| Invariant.KeepDeleteTxn | src/r_mdbx.cpp:797-827 | deleting a handle that holds no transaction keeps the invariant |
| Preservation.StepInv | src/r_mdbx.h:59-135 | every entry point, every finalizer and `fork()` keeps the invariant, whatever libmdbx answers |
| Preservation.OpenInv | src/r_mdbx.cpp:994-1088 | an open keeps the invariant on success, refusal, failure and panic alike |
| Preservation.CloseStepInv | src/r_mdbx.cpp:1093-1120 | a close keeps the invariant, poisoned and foreign environments included |
| Preservation.BeginInv | src/r_mdbx.cpp:1171-1202 | a begin keeps the invariant and leaves nothing when refused, failed or panicked |
| Preservation.FinishInv | src/r_mdbx.cpp:1215-1244 | a commit keeps the invariant, a thread mismatch leaving the transaction held |
| Preservation.AbortInv | src/r_mdbx.cpp:1256-1287 | an abort keeps the invariant, on poisoned owners too |
| Preservation.FinalizeEnvInv | src/r_mdbx.cpp:782-795 | the environment finalizer keeps the invariant |
| Preservation.FinalizeTxnInv | src/r_mdbx.cpp:797-827 | the transaction finalizer keeps the invariant |
| Preservation.EnvOpInv | src/r_mdbx.cpp:1584-1617 | operations on an environment keep the invariant, those that borrow the live transaction included |
| Preservation.OpsInv | src/r_mdbx.cpp:1600-1629 | operations on a transaction keep the invariant |
| Preservation.KeepFork | src/r_mdbx.cpp:709-728 | becoming a child process keeps the invariant |
| Preservation.AcceptedTxn | src/r_mdbx.cpp:904-935 | a handle `txn_from_sexp` accepts holds a running transaction, alone on its usable environment, that libmdbx may be called on |
| Preservation.KeepRelease | src/r_mdbx.cpp:797-818 | ending or giving up a transaction as the finalizers do keeps the invariant |
| Preservation.DetachSingle | src/r_mdbx.cpp:761-780 | with one registered transaction the loop of `detach_txns` is a release and an unlink |
| Preservation.MarkFinishedLate | src/r_mdbx.cpp:689-703 | recording the heap roots before or after unlinking gives the same memory |
| Preservation.ClosedUnreferenced | src/r_mdbx.cpp:782-795 | when the finalizer deletes an environment handle, no registry entry and no transaction points to it |
| Preservation.EndedUnreferenced | src/r_mdbx.cpp:797-827 | when the finalizer deletes a transaction handle, no registry points to it |
| Cleanup.FinalizersCommute | src/r_mdbx.cpp:753-827 | finalizing an environment and then a transaction, or the reverse, makes the same native calls and leaves the same handles, registries and abandoned list |
| Cleanup.PanicIsRecoverable | src/r_mdbx.cpp:1263-1287 | after a panic abort-then-close and close-then-abort both succeed without a native call, leave the same memory, and repeating either changes nothing |
| Cleanup.ClosePoisoned | src/r_mdbx.cpp:1103-1109 | a poisoned environment without a transaction is closed without a native call, once |
| Cleanup.PanicLeavesReleasable | src/r_mdbx.cpp:433-445 | every panic an operation reports, outside open and close, leaves the very environment it worked on in the state the two lemmas above release |
| Cleanup.PanicThenCleanup | src/r_mdbx.cpp:1263-1287 | from a panicking operation to the end: closing, aborting then closing, and closing then aborting that environment and its transaction all succeed without a native call and end in one state, which repeating does not change |
| Cleanup.PanicInFinalizer | src/r_mdbx.cpp:797-827 | a panic in the transaction finalizer's abort, which is not reported, leaves the environment as recoverable |
| Cleanup.PanicInOpen | src/r_mdbx.cpp:1056-1062 | a panic in an open leaves every handle and both registries as they were |
| Cleanup.LookingOnceSuffices | src/r_mdbx.cpp:761-780 | under the invariant, deciding `usable` once equals deciding it before each transaction |
| Cleanup.LookingOnceNeedsOne | src/r_mdbx.cpp:761-771 | with two registered transactions and panicking aborts, deciding once makes a forbidden call and deciding each time does not |
| Cleanup.FinalizerTrustsTheThread | src/r_mdbx.cpp:809-823 | the finalizer accounts for the transaction exactly when the abort did not report a thread mismatch |
| Answers.OpenAnswers | src/r_mdbx.cpp:994-1088 | an open is refused, changing nothing, exactly while this process has the path open; otherwise the first of creating and opening that fails is the answer and leaves no handle and no registration, the environment being closed again or given up; on success there is one new handle, registered, sound, with its list starts read |
| Answers.CloseAnswers | src/r_mdbx.cpp:1103-1119 | a close of a sound environment is refused, and nothing is called or changed, exactly while a native transaction runs on it; otherwise it is one native close whose outcome is the answer, and no other handle changes |
| Answers.CloseIsIdempotent | src/r_mdbx.cpp:1090-1101 | closing what is closed or gone is done without a call or a change |
| Answers.CloseElsewhere | src/r_mdbx.cpp:717-728 | closing another process's environment is refused, without a call, in one of two ways |
| Answers.BeginAnswers | src/r_mdbx.cpp:1171-1202 | a begin is refused exactly while a native transaction runs there; otherwise it is one native call, with one new active handle exactly on success |
| Answers.FinishAnswers | src/r_mdbx.cpp:1215-1244 | a commit or abort is one native call; which reply stands for which outcome; the handle lets go exactly unless libmdbx panicked or kept the transaction, ends committed exactly after a commit that succeeded, and a writer's list starts are read then |
| Answers.AbortAnswers | src/r_mdbx.cpp:1256-1287 | an abort of what is over does nothing, of another process's is refused, on a broken environment gives the transaction up without a call, and is otherwise the native abort |
| Answers.OperationAnswers | src/r_mdbx.cpp:1480-1515 | an operation is one native call whose outcome is the answer; a writer's view becomes what a successful one made of it, and no other view or store changes |
| Answers.StatAnswers | src/r_mdbx.cpp:1600-1605 | statistics of a transaction ask about its environment under it, and a panic marks the environment alone |
| Answers.EnvOpAnswers | src/r_mdbx.cpp:1584-1617 | an environment operation is one native call, under the transaction running there if it is one that borrows it, and under none otherwise |
| Answers.EnvRefusals | src/r_mdbx.cpp:883-902 | each reason for refusing an environment is given exactly when it holds of the native ledger: another process's, closed, broken |
| Answers.TxnRefusals | src/r_mdbx.cpp:904-935 | the same for transactions; an accepted one is one libmdbx may be called on |
| Answers.RefusedDoesNothing | src/r_mdbx.cpp:883-935 | a refused begin, operation, commit or abort changes nothing and calls nothing |
| Answers.FinalizeTxnAnswers | src/r_mdbx.cpp:797-827 | a transaction that becomes garbage is aborted natively exactly while it may be used, and given up exactly if it is not or the abort panics |
| Answers.FinalizeEnvAnswers | src/r_mdbx.cpp:761-795 | an environment that becomes garbage has its transaction aborted and is then closed natively, exactly if it may be used by then |
| Reports.ReportIsHistory | src/r_mdbx.cpp:1293-1340 | over every run: "committed" exactly if libmdbx said it had committed the native transaction the handle was begun with, "aborted" exactly if it is over otherwise, "poisoned" exactly if it is not over but libmdbx panicked on its environment, "failed" exactly if it is usable and marked so, "invalid" exactly for a deleted or another process's handle |
| Reports.RefusalIsHistory | src/r_mdbx.cpp:883-902 | over every run: an environment this process holds is refused as poisoned exactly after a call that concerned it panicked, and accepted otherwise |
| Reports.InheritedIsRefused | src/r_mdbx.cpp:709-728 | after any run, a child process is refused every environment and transaction it inherited, finished ones included |
| Bracket.BracketIsClean | R/txn.R:210-236 | for every body: no transaction stays registered unless the cleanup abort panics; the store is unchanged or is the view of one successful commit; the state is "committed" exactly when that commit succeeded |
| Bracket.RollsBackUnlessReturned | R/txn.R:210-236 | a bracket whose body threw, or that only reads, rolls back unless the body committed by itself: libmdbx is never asked to commit the transaction, the state is not "committed", the store is as before |
| Bracket.ThrownCommitsNoMore | R/txn.R:213-221 | whatever the body did before it threw, from then on nothing is committed: not asked for, and the store stays what it was |
| Bracket.NothingAfterFailure | R/txn.R:218-221 | a bracket is the same whatever its body had left to do when it failed, and it throws |
| Bracket.BodyNext | R/txn.R:218-221 | a body goes on past an act that does not fail and ends with one that does |
| Bracket.ReturnsIff | R/txn.R:220-223 | a bracket returns exactly if its body does and, when it writes, the transaction is then still accepted and its commit succeeds |
| Bracket.BracketStores | R/txn.R:210-223 | what a committed write bracket has stored is what the last successful operation in the history of its transaction made of the store, or the store as it was |
| Bracket.UnbegunIsClean | R/txn.R:213-216 | a bracket that could not begin leaves no transaction and changes no registry |
| Bracket.ReturnedMeansCommitted | R/txn.R:220-223 | a write bracket that returns rather than throws has committed, and its cleanup abort does nothing |
| Bracket.TracksAbort | src/r_mdbx.cpp:1256-1287 | inside a bracket an abort ends the transaction unless libmdbx panics in it |
| Bracket.TracksFinish | src/r_mdbx.cpp:1215-1244 | inside a bracket the store changes exactly with a commit that succeeds |
| Lifecycle.Process.FindOpenEnv | src/r_mdbx.cpp:119-125 | finds an entry of this process with the key exactly if there is one |
| Lifecycle.Process.Abandon | src/r_mdbx.cpp:143-150 | appends a pointer that is there, and nothing for null |
| Lifecycle.Process.AbandonEnv | src/r_mdbx.cpp:152-156 | appends the environment and its list starts, in that order, and changes nothing else |
| Lifecycle.Process.RecordHeapRoots | src/r_mdbx.cpp:161-165 | refreshes the list starts exactly for a healthy environment of this process |
| Lifecycle.Process.PoisonTxn | src/r_mdbx.cpp:433-437 | poisons the transaction and its owner, and nothing else |
| Lifecycle.Process.GuardTxn | src/r_mdbx.cpp:272-278 | makes one call and poisons exactly when it panicked |
| Lifecycle.Process.UnregisterTxn | src/r_mdbx.cpp:678-684 | removes every occurrence from the owner's registry, and does nothing without an owner |
| Lifecycle.Process.MarkFinished | src/r_mdbx.cpp:689-703 | the whole new memory: heap roots for writers, then pointer, state, registry and owner |
| Lifecycle.Process.CloseHandle | src/r_mdbx.cpp:709-751 | the whole new memory and the reply on each of the five ways out; `env` is null on all of them |
| Lifecycle.Process.DetachTxns | src/r_mdbx.cpp:761-780 | the whole new memory after the loop; the registry is empty and no pointer dangles |
| Lifecycle.Process.NewTxn | src/r_mdbx.cpp:1190-1192 | the new handle is the only change, and nothing refers to it yet |
| Lifecycle.Process.EnvRefusal | src/r_mdbx.cpp:883-902 | the reason `env_from_sexp` refuses, in the order it checks |
| Lifecycle.Process.TxnRefusal | src/r_mdbx.cpp:904-935 | the reason `txn_from_sexp` refuses, in the order it checks |
| Lifecycle.Process.EnvOpen | src/r_mdbx.cpp:994-1088 | the whole new memory and reply of an open: the transition the invariant and safety theorems are about |
| Lifecycle.Process.EnvClose | src/r_mdbx.cpp:1093-1120 | the whole new memory and reply of a close |
| Lifecycle.Process.TxnBegin | src/r_mdbx.cpp:1171-1202 | the whole new memory and reply of a begin |
| Lifecycle.Process.FinishTxn | src/r_mdbx.cpp:1215-1244 | the whole new memory and reply of a commit or ordinary abort |
| Lifecycle.Process.TxnAbort | src/r_mdbx.cpp:1256-1287 | the whole new memory and reply of an abort, idempotent and poisoned cases included |
| Lifecycle.Process.TxnState | src/r_mdbx.cpp:1293-1340 | the reported state |
| Lifecycle.Process.CurrentTxn | src/r_mdbx.cpp:1584-1590 | the first registered native transaction, or none |
| Lifecycle.Process.EnvOp | src/r_mdbx.cpp:1594-1622 | the whole new memory and reply of an operation on an environment |
| Lifecycle.Process.TxnStat | src/r_mdbx.cpp:1600-1605 | the whole new memory and reply; a panic poisons the environment alone |
| Lifecycle.Process.TxnOp | src/r_mdbx.cpp:1459-1515 | the whole new memory and reply; a panic poisons the transaction and its environment |
| Lifecycle.Process.FinalizeEnv | src/r_mdbx.cpp:782-795 | the whole new memory; the handle is gone and nothing points to it |
| Lifecycle.Process.FinalizeTxn | src/r_mdbx.cpp:797-827 | the whole new memory; the handle is gone and nothing points to it |
| Lifecycle.Process.Perform | src/r_mdbx.h:59-135 | any step leads from a state satisfying the invariant to one satisfying it, with the memory and reply of the value-level step |
| Lifecycle.Process.RunBody | R/txn.R:218-221 | a body runs to its first uncaught failure, with the memory that leaves |
| Lifecycle.Process.WithTxn | R/txn.R:210-236 | begin, body, commit and the abort on exit, with the memory and replies of the bracket the theorems are about |
| Guard.CopyText | src/r_mdbx_hooks.cpp:38-53 | the destination reads as the longest prefix of the source that fits with its terminator; null reads as empty; nothing is written past `size`, and nothing at all when it is zero |
| Guard.FitIsLongest | src/r_mdbx_hooks.cpp:45-52 | a prefix of the text fits with a terminator exactly if it is a prefix of what is kept |
| Guard.MemoryHoldsText | src/r_mdbx_hooks.cpp:99-104 | a null message or function name reads as the words put in its place |
| Guard.Thread.Panic | src/r_mdbx_hooks.cpp:97-111 | records both texts and the line and jumps to the active guard; without one it is R's own error |
| Guard.Thread.RunGuarded | src/r_mdbx_hooks.cpp:55-78 | always returns, with the guard that was active before active again; the trace is that of a semantics without frames or jumps |
| Guard.Thread.Run | src/r_mdbx_hooks.cpp:55-78 | any nesting of work, panics and guarded calls runs as that semantics says, a panic with no guard being R's error |
| Guard.PoisonThenReturn | src/r_mdbx_hooks.cpp:70-77 | guarded calls being numbered, every run of a poison callback is followed at once by the panicked return of the same guarded call |
| Guard.PanicsRunTheirPoison | src/r_mdbx_hooks.cpp:70-77 | conversely, every panicked return has the panic it reports right before it, with the callback that its call began with run in between, or none if it began with none |
| Guard.PanicsAreCaught | src/r_mdbx_hooks.cpp:55-78 | every panic but one that escapes altogether is followed at once by the callback and the panicked return of one guarded call begun before it |
| Guard.Driven | src/r_mdbx_hooks.cpp:55-78 | every run is one a stack of guards accepts: calls return innermost first, a panic ends the innermost one, and the stack is left as it was |
| Guard.DoesItsWork | src/r_mdbx_hooks.cpp:55-78 | exactly the work before a panic in the same guarded call gets done, and what follows a guarded call goes on |
| Guard.GuardsReturnOnce | src/r_mdbx_hooks.cpp:55-78 | no guarded call begins or returns twice, so a number names one call |
| Guard.RecordedSays | src/r_mdbx_hooks.cpp:97-111 | the recorded message and function name are each as much of their own text as there is room for, and the stand-in words for null |
| Scan.ScanCall | src/r_mdbx.cpp:545-610 | for every database, start, limit and direction the keys are exactly the reference model's listing, values parallel; a cursor that cannot be opened gives its status and no keys; after any other failing call they are a prefix of the listing |
| Scan.Position | src/r_mdbx.cpp:560-585 | the first record of the walk, or that there is none: seek, overshoot and running past the end included |
| Scan.Fetch | src/r_mdbx.cpp:574-601 | each turn of the loop gives the next record of the walk, or that it has ended |
| Scan.KeptIsWalk | tests/testthat/helper-state-model.R:97-119 | filtering the sorted listing by `start` is walking from one place in it |
| Scan.ListingIsAsked | tests/testthat/helper-state-model.R:97-119 | the listing is in order, of keys on the right side of `start`, no more than the limit; and a key on that side left out comes after all of it, the limit having been reached |
| Scan.StartComesFirst | tests/testthat/helper-state-model.R:107-112 | `start` is inclusive: a key that is there comes first in its own listing, in both directions |
| Scan.EdgeDecides | tests/testthat/helper-state-model.R:109-112 | a key passes the `start` filter exactly if it is on the right side of that place |
| Listing.CheckLimit | R/scan.R:132-153 | which limits are refused, and that only "no limit" becomes the sentinel |
| Listing.MdbxKeys | R/scan.R:61-70 | refused exactly for an unbounded scan of too large a database or a bad limit, a failing entry count being reported; otherwise exactly the records asked for |
| Listing.KeysInChunks | vignettes/articles/cache.Rmd:251-267 | terminates with the walk of scans; lists every key once and in order exactly if a chunk holds two records or all of them, and otherwise the first chunk |
| Listing.ChunksCompleteIff | R/scan.R:28-33 | scanning on from the last key seen is complete exactly if the chunk holds two records or all of them, and stops after one chunk otherwise |
| Listing.ResumesAt | R/scan.R:28-30 | a forward scan from a key that is there begins with it |
| Ids.IdsInvert | tests/testthat/helper-state-model.R:27-37 | `id_raw()` inverts `raw_id()`; the other way round, on text that decodes, exactly for the letter followed by no upper-case digit |
| Ids.IdOrder | tests/testthat/helper-state-model.R:15-29 | text order of ids is byte order of keys, and ids are distinct |
| Ids.ModelListsTheSame | tests/testthat/helper-state-model.R:97-119 | sorting, filtering by `start` and limiting ids gives the ids of doing it to keys |
| Tables.SortedUnique | tests/testthat/helper-state-model.R:39-42 | a set of keys has one sorted listing |
| Tables.PutWf | vignettes/articles/cache.Rmd:155-166 | a plain upsert keeps a database sorted without repeats and its listing equal to its keys |
| Tables.DelWf | tests/testthat/helper-state-model.R:186-194 | so does deleting |
| DbiCache.TxnHandle.EnsureDbi | src/r_mdbx.cpp:1396-1441 | the number used is what opening the name afresh gives, kept or not; the databases do not change |
| DbiCache.TxnHandle.DbiOpen | src/r_mdbx.cpp:1772-1808 | the reference model's create, refused in a read transaction; the kept numbers go on agreeing |
| DbiCache.TxnHandle.Get | src/r_mdbx.cpp:1460-1474 | the reference model's contents of the database by that name; never a stale number |
| DbiCache.TxnHandle.Put | src/r_mdbx.cpp:1480-1497 | the reference model's put by name, and nothing changed on any other answer |
| DbiCache.TxnHandle.Del | src/r_mdbx.cpp:1502-1515 | the reference model's delete by name, and nothing changed on any other answer |
| DbiCache.TxnHandle.Sequence | src/r_mdbx.cpp:1853-1899 | the reference model's counter by name; refused exactly on an increment R rejects or one that would pass 2^53, and a refusal changes nothing |
| DbiCache.TxnHandle.DbiDrop | src/r_mdbx.cpp:1946-1998 | the reference model's drop by name; main is never deleted and not emptied while there are named databases |
| DbiCache.OpenThenGet | vignettes/articles/cache.Rmd:112-116 | opening with create, as the cache does on every start, loses nothing: every key of every database reads as before |
| DbiCache.PutThenGet | src/r_mdbx.cpp:1480-1497 | after a put that key reads what was stored, exactly if it was, and every other key as before |
| DbiCache.DelThenGet | src/r_mdbx.cpp:1502-1515 | after a delete that key reads nothing, and every other key as before; whether it was there is the answer |
| DbiCache.DropThenGet | src/r_mdbx.cpp:1946-1998 | after a drop the database reads empty or is gone, and every other reads as before |
| ReferenceModel.CreateAdds | tests/testthat/helper-state-model.R:196-204 | creating adds that database, empty and counting from zero, and changes no record or counter of one that was there |
| ReferenceModel.PutWrites | tests/testthat/helper-state-model.R:172-184 | a put stores exactly if it may, and then changes what that key reads and nothing else |
| ReferenceModel.DelRemoves | tests/testthat/helper-state-model.R:186-194 | a delete removes exactly that record and says whether it was there |
| ReferenceModel.DropEmpties | tests/testthat/helper-state-model.R:206-223 | a drop empties or removes exactly that database; its counter starts over exactly if it is removed or had records |
| ReferenceModel.ReserveAdvances | tests/testthat/helper-state-model.R:225-236 | a reservation answers with the counter, moves it on by the increment, and touches nothing else |
| DbiCache.Library.Open | src/r_mdbx.cpp:455-460 | what is assumed of `mdbx_dbi_open()`: idempotent on a number already given, otherwise a number not in use |
| DbiCache.AgreeAfterDelete | src/r_mdbx.cpp:1986-1997 | erasing the deleted name keeps every other kept number right |
| DbiCache.DeletedEntryDisagrees | src/r_mdbx.cpp:1986-1988 | without the erasure the kept numbers are wrong |
| DbiCache.EmptyingMainAgreesIff | src/r_mdbx.cpp:1951-1969 | emptying main keeps the kept numbers right exactly if none is for a named database |
| DbiCache.AgreeCarries | src/r_mdbx.h:109-134 | agreement depends only on which databases there are and what numbers stand for |
| Counters.RefusesExactly | src/r_mdbx.cpp:1873-1885 | for every counter and whole increment the test in doubles refuses exactly when their sum passes 2^53 |
| Counters.ExactBelow | src/r_mdbx.cpp:63-73 | a counter up to 2^53 reaches R exactly |
| Counters.NeverBelow | src/r_mdbx.cpp:1868-1868 | a larger one never reaches R as a smaller number than 2^53 |
| Counters.CastIsNear | src/r_mdbx.cpp:1868-1868 | the cast to double is off by at most half the spacing of doubles there |
| Counters.DuplicatesPast | src/r_mdbx.cpp:1873-1876 | past 2^53 two consecutive counters are one number |
| Counters.CheckIncrement | R/dbi.R:261-269 | exactly the whole numbers from 0 to 2^53 are let through, as themselves |
| Reservations.ReservationsAreUnique | tests/testthat/helper-state-model.R:225-236 | in every history the intervals committed transactions reserved on a database are disjoint, as integers and as R numbers, unless it was emptied or deleted in between |
| Reservations.HistoriesRepeatIff | tests/testthat/helper-state-model.R:206-223 | a number is handed out twice exactly when there are reservations on both sides of a reset |
| Reservations.ApplyMarks | tests/testthat/helper-state-model.R:206-236 | one operation moves a database's counter only by a grant that starts at it, or by a reset |
| Reservations.KeptRun | tests/testthat/helper-state-model.R:159-170 | through any committed and aborted transactions the counter stands where the log of grants says |
| Reservations.LastTouchReads | tests/testthat/helper-state-model.R:172-223 | after any history a key reads what the last operation that touched it left there |
| Reservations.Perform | src/r_mdbx.cpp:1480-1515 | asking a transaction handle for a put, delete, create, drop or reservation gives the store the histories above are made of if it answers, and changes nothing if it does not |
| Reservations.PerformAll | tests/testthat/helper-state-model.R:172-236 | a whole transaction through the handle ends where the history of the operations that answered ends |
| Doubles.DecodesDouble | vignettes/articles/cache.Rmd:84-85 | `un8` inverts `be8` |
| Doubles.EncodesBytes | vignettes/articles/cache.Rmd:84-85 | `be8` inverts `un8` on eight bytes that encode a number |
| Doubles.ByteOrderIsNumeric | vignettes/articles/cache.Rmd:78-93 | without sign bits, infinity included, byte order is numeric order and encodings are distinct |
| Doubles.ByteOrderNeedsNoSign | vignettes/articles/cache.Rmd:78-93 | with sign bits the orders agree on a pair exactly in three cases |
| Doubles.BytesAreBits | vignettes/articles/cache.Rmd:84-84 | byte order is the order of the 64-bit patterns |
| Doubles.Spacing | vignettes/articles/cache.Rmd:78-93 | the numbers patterns stand for are spaced as those of binary64 are |
| Cache.IndexRoundTrip | vignettes/articles/cache.Rmd:129-131 | `index_of` inverts `index_key` |
| Cache.IndexIsItsPairs | vignettes/articles/cache.Rmd:138-168 | an index agrees with the metadata exactly if its entries are the pairs of time and key in it |
| Cache.SetInStep | vignettes/articles/cache.Rmd:138-168 | setting a record, new or replacing, keeps the four databases in step |
| Cache.ForgetInStep | vignettes/articles/cache.Rmd:171-182 | forgetting keeps them in step and removes exactly that key |
| CacheOrder.ExpiryIsSound | vignettes/articles/cache.Rmd:219-235 | whatever the deadlines, nothing is removed that was not due |
| CacheOrder.DueMeans | vignettes/articles/cache.Rmd:194-195 | a record is due from its deadline on, and one that never expires never is |
| CacheOrder.ExpiryRemoves | vignettes/articles/cache.Rmd:219-235 | for every limit and time: how many records an expiry removes, that they are the first listed, and on which pairs the listing is not in time order |
| CacheOrder.ExpiryIsComplete | vignettes/articles/cache.Rmd:217-235 | without sign bits exactly the smallest entries are removed, as many as are due or as the limit allows, and none stays that passed before one that went |
| CacheOrder.ExpiryMissesIff | vignettes/articles/cache.Rmd:219-235 | for every limit, an expiry removes fewer than it should exactly if one deadline with a sign bit has passed, one deadline has not, and the passed ones without a sign bit are fewer than the limit |
| CacheOrder.ExpiryLeavesDue | vignettes/articles/cache.Rmd:219-235 | something due stays exactly if fewer records were removed than are due |
| CacheOrder.ExpiryIsInvisible | vignettes/articles/cache.Rmd:185-205 | expiring changes no read, then or later |
| CacheOrder.EvictionTakesOldest | vignettes/articles/cache.Rmd:237-245 | of a record that stays and one that goes, the one that stays was accessed earlier exactly if its time has a sign bit and is another time |
| CacheOrder.EvictionCounts | vignettes/articles/cache.Rmd:237-245 | exactly as many records as asked go, or all there are; the others are kept as they were, and the databases in step |
| CacheOrder.StoredIsThere | vignettes/articles/cache.Rmd:195-203 | a record that is there and not due has a payload to read; it reads as missing exactly if absent or due |
| CacheOrder.IndexLists | vignettes/articles/cache.Rmd:129-131 | a decoded index lists every key once, with its time |
| CacheStore.Draft.Forget | vignettes/articles/cache.Rmd:171-182 | all four databases after `forget()`, and whether there was a record |
| CacheStore.Draft.Write | vignettes/articles/cache.Rmd:143-167 | all four databases after a set, small and large payloads |
| CacheStore.Draft.ForgetDue | vignettes/articles/cache.Rmd:225-233 | the loop stops at the first entry still to come, having forgotten every one before it |
| CacheStore.DiskCache.CacheSet | vignettes/articles/cache.Rmd:138-168 | the whole set or, if any call fails, no change; the databases stay in step |
| CacheStore.DiskCache.CacheDelete | vignettes/articles/cache.Rmd:207-209 | the same for deletion |
| CacheStore.DiskCache.CacheExpire | vignettes/articles/cache.Rmd:219-235 | the same for expiry, and the number removed |
| CacheStore.DiskCache.CacheEvict | vignettes/articles/cache.Rmd:238-245 | the same for eviction, and the number listed |
| CacheStore.DiskCache.CacheGet | vignettes/articles/cache.Rmd:189-205 | what is read; a payload that should be there is |
| CacheStore.DiskCache.CacheKeys | vignettes/articles/cache.Rmd:251-267 | every key once, in order |
| CacheStore.EveryRunInStep | vignettes/articles/cache.Rmd:129-183 | after any sets, deletions, expiries and evictions the indexes are exactly the pairs in the metadata, and exactly the keys without a blob have a value |
| CacheStore.RecordsAreLastSet | vignettes/articles/cache.Rmd:138-168 | after any operations every record, its times, size and payload are those of the last set of its key, which nothing has reset since |
| CacheStore.RecordsStay | vignettes/articles/cache.Rmd:207-245 | a record that was set and not reset is there, unless an eviction took place or an expiry at or after its deadline |
| CacheStore.RunsExpireFully | vignettes/articles/cache.Rmd:86-95 | after operations whose times have no sign bit, an expiry at any time removes min(limit, due) records and an eviction or expiry keeps none earlier than one it removes |
| CacheStore.OverdueStays | vignettes/articles/cache.Rmd:219-235 | a run after which a record is due and no expiry removes it, whatever the limit: one deadline before 1970, one never |
| CacheStore.SetThenGet | vignettes/articles/cache.Rmd:138-205 | a record reads back as written until its deadline, and no other read changes |
| Flags.BitsFrom | src/r_flags.cpp:69-89 | the union of the named entries, or none for an unknown name |
| Flags.NamesFrom | src/r_flags.cpp:95-110 | the entries fully present, in table order, SAFE_NOSYNC left out once UTTERLY_NOSYNC is in |
| Flags.NamesKeepBits | src/r_flags.cpp:69-110 | names read back give the union of the entries present in the word |
| Flags.NamesAreStable | src/r_flags.cpp:91-110 | reporting those bits gives the same names |
| Flags.NeverBothIff | src/r_flags.cpp:28-31 | no word is reported as both modes exactly if UTTERLY_NOSYNC comes first in the table |
| Flags.ReportedIff | src/r_flags.cpp:41-110 | a name is reported exactly if it is one the package knows and the word has all its bits, SAFE_NOSYNC only without UTTERLY_NOSYNC |
| Flags.NamesMeanTheirBits | src/r_flags.cpp:41-89 | names are refused exactly if one is unknown, and otherwise stand for the bits some name among them has |
| Flags.EnvFlagsAreTabled | src/r_flags.cpp:41-55 | the package's table meets what the lemmas ask exactly if UTTERLY_NOSYNC contains SAFE_NOSYNC, and lists it first |

## Left out

- libmdbx itself: B-trees, snapshots, locking, durability, reader slots and what other processes commit. The vendored patches and `mdbx.h` are not part of this model.
- R and cpp11 plumbing: protection, condition construction, message texts, printing, list building, argument validators of one branch, the thread-mismatch and panic test hooks.
- `env_key()` and `env_exists()`: a canonical key is a value given to the open.
- Allocation failure inside a scan, and unwinding R errors through native code.
- Handle objects an `mdbx_env` or `mdbx_txn` argument turns out not to be: the type checks of external pointers.
- Clearing an external pointer and deleting its handle are one step, as nothing runs between them.
- Whether libmdbx marked a running transaction erroneous is a parameter of the reported state.
- The databases of a transaction in the lifecycle are one value that each operation may replace; what the operations do to them is in `DbiCache.dfy`, with libmdbx's panics left to the lifecycle.
- The listing of the main database includes the names of the named ones; a scan here is of whatever keys its tree holds.
- UTF-8 validation and decoding: keys and values are bytes. Database names with embedded terminators are not modelled.
- DbiCache.TxnHandle.Sequence: increments that R's own check rejects are not followed into the native entry point, which truncates fractions.
- Ids.IdsInvert: text that is not pairs of hexadecimal digits has no value here; `strtoi()` and the recycling of `substring()` may read it in other ways, or refuse it.
- Blob files of the cache article: their names are parameters and their contents are not followed. Adding a lifetime to a time, and times that are not numbers, are left out as well.
- Which statuses other than success an operation takes for an answer (a missing record, an existing key, `MDBX_RESULT_TRUE` from a sync or a reader check): in the lifecycle each comes back as `Failed`, and a bracket's body decides whether it catches it. `DbiCache.dfy` has them for the database operations.
- CacheStore.DiskCache.CacheSet: libmdbx's limit on key length is one of the failures a call may have.
- Flags: bits are positions rather than words, their values in `mdbx.h` are parameters, and the transaction flags, whose table has no overlapping entries, are not repeated.
- A 32-bit platform's smaller bound on limits.
