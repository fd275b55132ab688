# sqly: a verified model of its transaction core

sqly is a small SQL layer over SQLite and PostgreSQL. This project models the parts of it
whose correctness depends on order, cancellation and concurrency, and proves in Dafny what
the library promises about them. `dafny verify dfyconfig.toml` checks everything.

**The server** (`server.dfy`) is the contract everything else rests on. A connection carries
one command at a time; the environment decides when it finishes, whether it is rejected, with
what code and what partial work left behind, and when the connection is lost. A dropped future
leaves its command in flight. COMMIT of a failed PostgreSQL transaction answers success
without publishing, and a statement outside a transaction publishes at once: the client has to
avoid both.

**Transactions** (`transaction.dfy`, `transaction_results.dfy`, `transaction_object.dfy`,
`transaction_runs.dfy`, `commit_error.dfy`). An `async fn` is a sequence of stages between awaits. `Poll` goes from one
await to the next, `Cancel` is the drop of the future, and a run is any sequence of such
events and server moves. One invariant ties the client's `aborted` flag to the server's state.
The class `Transaction` is the object with its fields updated in place, each method proved
equal to the step function.

**Write scopes** (`scope.dfy`, `scope_results.dfy`, `scope_admission.dfy`, `scope_confined.dfy`,
`scope_object.dfy`, `scope_refines.dfy`, `scope_witness.dfy`).
The transaction behind a fair mutex, the cursor and operation slots with tokens, the
serialising lock, the `closed` flag, and the phases of `enter` including unwinding. Handles are
polled inside or outside the scope, retained, or dropped, by anyone, at any time. The slots are
not exclusive (a run shows both occupied), so exclusivity is stated on the guard. Every scope
run is, for its transaction, a listed sequence of the transaction machine's events.

**Migrations** (`migrate.dfy`, `migrate_run.dfy`, `migrate_history.dfy`, `migrate_race.dfy`,
`checksum.dfy`). The
planner as functions, the runner as objects whose loops drive the transaction statement by
statement under an arbitrary environment, any history of such runs, and any number of runners
under the lock.

**The driver** (`driver.dfy`, `pool.dfy`). The PostgreSQL probe loop with its savepoints, and
the leases, transactions and SQLite progress handlers of any number of pooled connections.

**Text** (`lock.dfy`, `value.dfy`, `calendar.dfy`, `decimal.dfy`). The row-lock selector and
the timestamp, each with a reader that is its inverse.

**The warehouse** (`warehouse.dfy`, `warehouse_scoped.dfy`, `warehouse_witness.dfy`,
`warehouse_scoped_witness.dfy`). Concurrent `reserve` calls over shared tables with row locks, each on its own transaction, and each in its
own write scope whose transaction it is.

## Where the code falls short of its description

- `commit` promises that any error except `CommitUnknown` means nothing was committed. The
  classification in src/transaction.rs:301-318 applies the tests for SQLSTATE classes 23 and 40
  also to SQLite, whose codes are decimal numbers. Result code 2314 (an input/output error
  while changing a file lock) begins with 23 and is reported as a definite failure although
  its primary code, 10, does not rule out that COMMIT was applied. `MisreadExample` is the
  input, `SqliteCodesAreExact` the whole family, and `RejectedMeansUnpublished` states for every
  backend and code that the report is true if and only if the backend refuses for sure with
  that code. `ScopeErrorsAreDefinite` carries the condition to write scopes; on PostgreSQL it
  is no restriction. `RunMigrator` has the same condition. What SQLite's codes say about COMMIT is `CommitRefused` in `server.dfy`.
- The probe loop finds the true parameter count whenever full preparation succeeds, except
  when the single probe that withholds the last used hint is refused with a code outside the
  list in src/driver.rs:501. `UnrelatedRefusalHidesTheCount` is such a case: without the hint
  another type is inferred, and a literal that has to be read at that type does not parse
  (22P02). `ReferencedIsExact` states the result in both cases.
- A checksum does not always determine its migration: `CollidesExactlyWithNul` states that the
  hashed text of an admitted migration belongs to other dialect texts as well if and only if one
  of its own two texts contains NUL. Between two migrations it is enough that neither SQLite
  text does (`PreimageInjective`).

## Model

| member | source | states |
|---|---|---|
| `Scopes.ScopeAtomicity` | src/scoped.rs:193-253 | in every run, what is published is nothing or all acknowledged statements in order; Ok means all of them with none cut short; a definite error, or an end before COMMIT is sent, means none |
| `ScopeResults.ClosureErrorRollsBack` | src/scoped.rs:248-251 | after a closure's error, in every run, COMMIT is never sent, nothing is published, and a returned scope returned that error |
| `ScopeResults.OpenStreamRollsBack` | src/scoped.rs:223-243 | after Ok with a stream in the cursor slot, the same with `ActiveStream` |
| `ScopeResults.OkNeedsOk` | src/scoped.rs:222-247 | in every run, a scope returns Ok only after its closure returned Ok while it was active and the owner then found the cursor slot empty |
| `ScopeResults.LockDecides` | src/scoped.rs:199-218 | a BEGIN that fails, a lock that cannot be built, a failing lock statement, no row and several rows each end the scope unpublished with their own error; exactly one row opens it |
| `ScopeResults.LockComesFirst` | src/scoped.rs:203-208 | whenever the closure of a locking scope runs, and whenever it returned Ok, the lock is the first acknowledged statement |
| `ScopeAdmission.AdmissionNeedsRoom` | src/scoped.rs:478-493 | whatever happens, an operation newly waits only inside an active scope that is open with an empty cursor slot, and is newly admitted only in such a scope |
| `ScopeAdmission.StartIsAnswered` | src/scoped.rs:307-318 | outside a scope `NoActiveWriteScope`, with a stream open `ActiveStream`, both without trace; otherwise the operation waits |
| `ScopeAdmission.RecheckIsAnswered` | src/scoped.rs:480-481 | under the serialising lock: a closed scope refuses with `ScopeDatabaseMismatch`, an open stream with `ActiveStream`, and the operation then holds neither slot nor lock; otherwise it is admitted |
| `ScopeAdmission.PollIsAnswered` | src/scoped.rs:494-511 | refused exactly when closed, not current or no longer in the slot, and then everything is let go |
| `ScopeAdmission.StreamIsAnswered` | src/scoped.rs:370-396 | a stream is bound exactly inside an active scope with room, and otherwise ends with the matching error |
| `ScopeAdmission.StreamPollIsAnswered` | src/scoped.rs:427-442 | the end once over, a mismatch where the scope does not have it, the mapper's failure instead of a row, otherwise what the cursor yields |
| `ScopeAdmission.StreamKeepsOperationsOut` | src/scoped.rs:52-65 | over any run during which the cursor slot stays occupied, no operation newly waits or is newly admitted |
| `ScopeAdmission.GuardIsGranted` | src/scoped.rs:319-328 | the future whose turn it is begins, any other queues, and a ready one hands the guard to the first waiter |
| `ScopeAdmission.EmptiedMutexRefuses` | src/scoped.rs:322-325 | with the transaction taken out, a future reports `TransactionAborted` and touches nothing |
| `ScopeAdmission.EarlyDropAborts` | src/scoped.rs:413-425 | a stream or operation dropped while it uses the transaction makes it rollback-only |
| `ScopeAdmission.FailedMappingAborts` | src/stream.rs:90-96 | so does a row that the mapper refuses |
| `Scopes.ScopeSimulation` | src/scoped.rs:193-253 | while the scope is active and the transaction not rollback-only, nothing is in flight and the server holds exactly the acknowledged statements |
| `Scopes.GuardExclusive` | src/scoped.rs:373-386 | at most one future holds the transaction guard, it sits in a slot, and the transaction runs only on its behalf |
| `Scopes.TeardownNeverBlocks` | src/scoped.rs:33-50 | once both slots are emptied the mutex is free and holds the transaction; once the scope is over nothing keeps the connection, whatever handles survive |
| `Scopes.InstallFindsSlotEmpty` | src/scoped.rs:478-493 | in every reachable state the operation slot is empty when an operation is installed, so assigning it drops nothing |
| `ScopeConfinement.HandlesAreSilent` | src/scoped.rs:358-512 | from a closed scope, any sequence of actions of handles and streams sends, receives and acknowledges nothing and leaves the scope closed; the same holds of any sequence of actions outside a scope that is still open |
| `ScopeConfinement.ClosedForever` | src/scoped.rs:33-50 | a closed scope stays closed under every sequence of events |
| `ScopeConfinement.HandlesAreConfined` | src/scoped.rs:358-512 | in every reachable state, each action of an operation or stream fills, polls or clears only the slot entry with its own token, moves the transaction only through it, and leaves every other handle as it is |
| `ScopeConfinement.TeardownEnds` | src/scoped.rs:222-252 | once the closure is over, six turns of the owner, interleaved with anything, take the transaction out of the scope |
| `ScopeConfinement.DroppedScopeLetsGo` | src/scoped.rs:33-50 | from every reachable state in which the owner awaits, its drop and three turns of its drop handler, interleaved with anything, end with the transaction dropped and out of the scope |
| `Scopes.StreamEndsOnce` | src/scoped.rs:427-442 | the first error, end or failed mapping makes the stream over |
| `Scopes.StreamStaysOver` | src/stream.rs:83-98 | once over, whatever happens in between, every later poll yields the end and changes nothing |
| `Scopes.StepInv` | src/scoped.rs:193-512 | every atomic action of owner, handle, server or other thread keeps the scope invariant |
| `Scopes.RunInv` | src/scoped.rs:193-512 | the scope invariant holds in every reachable state |
| `ScopeRefinement.ScopeRefinesTransaction` | src/scoped.rs:193-512 | in every scope run the shared transaction is where an explicitly held one arrives by the listed issues, polls, drops and server moves, in the same order |
| `ScopeRefinement.StepOwn` | src/scoped.rs:193-512 | each scope event is, for the transaction, exactly the listed events of its own |
| `ScopeWitnesses.BothSlotsCanBeOccupied` | src/scoped.rs:373-386 | a run with both slots occupied, one of them holding the guard |
| `ScopeWitnesses.ScopeCanCommit` | src/scoped.rs:239-247 | a run whose scope returns Ok and has published its statement |
| `ScopeObjects.WriteScope.constructor` | src/scoped.rs:209-218 | a new scope is in the initial state of the scope machine |
| `ScopeObjects.WriteScope.DropFuture` | src/scoped.rs:33-50 | dropping a future cancels its operation, gives back the guard or leaves the queue |
| `ScopeObjects.WriteScope.ClearCursor` | src/scoped.rs:224-229 | taking the cursor slot |
| `ScopeObjects.WriteScope.ClearOperation` | src/scoped.rs:230-234 | taking the operation slot |
| `ScopeObjects.WriteScope.PollFuture` | src/scoped.rs:319-328 | the boxed future queues for the guard, starts the operation, or continues it, and gives the guard back when ready |
| `ScopeObjects.WriteScope.PollInstalled` | src/scoped.rs:494-511 | a poll of `operate` follows the scope machine; refused, it leaves the connection alone, and it never touches the cursor or another token's entry |
| `ScopeObjects.WriteScope.EndOperation` | src/scoped.rs:462-476 | the handle clears only its own entry and frees the serialising lock |
| `ScopeObjects.WriteScope.InstallOperation` | src/scoped.rs:482-493 | installing finds the slot empty and fills it |
| `ScopeObjects.WriteScope.BeginOperation` | src/scoped.rs:307-318 | an operation is refused outside a scope and while a stream is active, else it queues |
| `ScopeObjects.WriteScope.PollCursor` | src/scoped.rs:397-403 | polls the cursor's future and empties the slot once it is ready |
| `ScopeObjects.WriteScope.PollOperationFuture` | src/scoped.rs:502-509 | polls the operation's future and empties the slot once it is ready |
| `ScopeObjects.WriteScope.Retires` | src/scoped.rs:33-50 | closes the scope and empties both slots |
| `ScopeObjects.WriteScope.LockSerial` | src/scoped.rs:480 | the serialising lock goes to one waiting operation |
| `ScopeObjects.WriteScope.CheckAgain` | src/scoped.rs:480-481 | the second look follows the scope machine, whose refusals `RecheckIsAnswered` states, and keeps validity |
| `ScopeObjects.WriteScope.BeginStream` | src/scoped.rs:371-398 | the first poll binds the stream to a fresh token or ends it for good |
| `ScopeObjects.WriteScope.PollRows` | src/scoped.rs:427-442 | later polls follow the scope machine; a mismatch or an ended stream leaves the connection alone, and no poll touches the operation or another token's entry |
| `ScopeObjects.WriteScope.EndStream` | src/scoped.rs:413-425 | finishing clears only the stream's own cursor entry |
| `ScopeObjects.WriteScope.Open` | src/scoped.rs:199-218 | BEGIN, then the row lock or the closure; a bad lock rolls back |
| `ScopeObjects.WriteScope.AcquireRow` | src/scoped.rs:203-208 | exactly one locked row opens the scope, every other answer rolls back |
| `ScopeObjects.WriteScope.TakeTransaction` | src/scoped.rs:235-252 | the transaction leaves the mutex and is consumed |
| `ScopeObjects.WriteScope.TearDown` | src/scoped.rs:223-252 | cursor, operation, transaction, in this order; the mutex is never found held |
| `ScopeObjects.WriteScope.Conclude` | src/scoped.rs:239-252 | Ok means everything acknowledged, and nothing else begun, is published; a definite error means nothing is |
| `ScopeObjects.WriteScope.Unwind` | src/scoped.rs:33-50 | the drop of `enter` in any phase: starts the teardown of a shared transaction and drops one that is not shared |
| `Transactions.Simulation` | src/transaction.rs:163-245 | in every run, a transaction that is not rollback-only, not consumed and has no operation running has nothing in flight and has begun only acknowledged statements; while its connection lives the server is open, not failed, without savepoint, its pending effects equal to the acknowledged statements |
| `Transactions.CommitAtomicity` | src/transaction.rs:133-149 | in every run, nothing or everything acknowledged is published; Ok published it, a definite error or an unsent COMMIT published nothing |
| `Transactions.ReturnedConnectionsAreClean` | src/transaction.rs:267-280 | a connection not closed on drop has no open transaction and nothing in flight |
| `Transactions.LocalErrorsKeepTheTransaction` | src/transaction.rs:191-195 | a failed statement leaves the transaction usable exactly for `BindCount` and `Encode`, and then the server is as before it |
| `Transactions.RollbackOnlyForever` | src/transaction.rs:169-173 | once rollback-only, no later events publish anything or make `commit` succeed |
| `Transactions.CancelledStatementAborts` | src/transaction.rs:172-173 | dropping a started statement at any await makes the transaction rollback-only |
| `TransactionResults.RollbackOnlyRefuses` | src/transaction.rs:169-171 | a rollback-only transaction refuses every statement, batch and stream with `TransactionAborted` and is left alone |
| `TransactionResults.AbortedCommitReports` | src/transaction.rs:134-137 | committing it, in every run, never sends COMMIT and answers nothing but `TransactionAborted` |
| `TransactionResults.ErrorsTellTheCause` | src/transaction.rs:163-224 | a statement, batch or stream reports `DatabaseLost`, `Encode`, the driver's error or success exactly for their causes, `BindCount` only after an answered preparation |
| `TransactionResults.ControlsTellTheCause` | src/transaction.rs:133-149 | the same for begin, commit and rollback |
| `TransactionResults.CountDecides` | src/driver.rs:246-307 | which answer to a preparation, with which count, goes on to execute, probes, undoes or fails, code by code |
| `TransactionResults.DecisionStands` | src/driver.rs:590-611 | over any polls and server moves, a statement whose parameters do not match is never sent for execution and acknowledges nothing; one whose parameters match is acknowledged exactly if it leaves the transaction usable |
| `TransactionResults.RowsAreForStreams` | src/transaction.rs:236-241 | rows are yielded exactly to streams |
| `Transactions.PollInv` | src/transaction.rs:163-265 | resuming any operation at any stage keeps the invariant |
| `Transactions.ServeInv` | src/transaction.rs:246-265 | every server move, including loss of the connection, keeps the invariant |
| `Transactions.PollAcks` | src/transaction.rs:191-195 | a statement is acknowledged only after the server answered its execution |
| `Transactions.PollSettles` | src/transaction.rs:191-195 | success acknowledges exactly the statement's effects and clears the flag; any other result acknowledges nothing |
| `Transactions.FinishAnswers` | src/driver.rs:583-612 | whatever the stage, the server's answer to its command means what the stage expects |
| `Transactions.PollSends` | src/transaction.rs:246-265 | a poll sends nothing but the command of its stage |
| `Transactions.ServePublishes` | src/transaction.rs:133-143 | only the COMMIT of a healthy transaction publishes |
| `Transactions.RunInv` | src/transaction.rs:65-280 | the invariant holds in every reachable state |
| `TransactionObjects.Transaction.constructor` | src/transaction.rs:79-86 | the object before BEGIN is sent |
| `TransactionObjects.Transaction.Issue` | src/transaction.rs:163-174 | exactly a rollback-only transaction refuses a statement; a started statement leaves the transaction marked rollback-only and nothing sent |
| `TransactionObjects.Transaction.Continue` | src/transaction.rs:133-265 | a successful statement leaves the transaction usable, acknowledged and mirrored by the server; a successful commit published everything, a definite failure nothing |
| `TransactionObjects.Transaction.Abandon` | src/transaction.rs:172-173 | a dropped statement makes the transaction rollback-only |
| `TransactionObjects.Transaction.Discard` | src/transaction.rs:267-280 | the connection is closed exactly if the transaction is unfinished, and one that is kept has no open transaction and nothing in flight |
| `CommitErrors.RejectedMeansUnpublished` | src/transaction.rs:301-318 | a definite commit failure is true in all runs if and only if the backend refuses for sure with its code |
| `CommitErrors.PostgresCodesAreExact` | src/transaction.rs:303-311 | for every SQLSTATE the classification agrees with the server |
| `CommitErrors.SqliteCodesAreExact` | src/transaction.rs:303-311 | for every SQLite code it claims too much exactly for the misread family |
| `CommitErrors.ListedCodes` | src/transaction.rs:307-310 | the listed SQLite codes are busy, locked or constraint codes |
| `CommitErrors.SqliteCommitAnswers` | src/transaction.rs:301-318 | for every SQLite result code, as a number: definite exactly for 5, 6, 19, 275, 787, 1299, 1555, 2067 and for codes whose digits begin with 23 or 40 except 40003, else `CommitUnknown` |
| `CommitErrors.PostgresCommitAnswers` | src/transaction.rs:301-318 | for every SQLSTATE: definite exactly for class 23 and class 40 without 40003 |
| `CommitErrors.CommitAnswersItsReply` | src/transaction.rs:139-140 | in every run, `commit` answers a rejected COMMIT with its classification and a lost one with `CommitUnknown` |
| `CommitErrors.MisreadExample` | src/transaction.rs:305 | SQLite code 2314 is misread |
| `CommitErrors.ScopeErrorsAreDefinite` | src/scoped.rs:193-253 | a scope that returns any error except `CommitUnknown` published nothing, unless its code is misread |
| `Migrations.ConstructionIsValid` | src/migrate.rs:107-157 | constructed migrators are ordered and their target is zero or supplied |
| `Migrations.TryNewMeaning` | src/migrate.rs:107-136 | exactly which namespaces and lists are accepted; the migrator carries them with minimum zero and the last supplied version as target, zero if there is none |
| `Migrations.CompatibilityMeaning` | src/migrate.rs:140-157 | exactly which target and minimum are accepted, and that they are carried as given |
| `Migrations.FreshMigratorRunsAll` | src/migrate.rs:129-135 | a successful run of a migrator fresh from `try_new` leaves one matching row for every supplied migration |
| `Migrations.RefusalMeaning` | src/migrate.rs:248-286 | a refused ledger is refused for reaching past the target, or for the first row that does not continue the history, with its versions and what is wrong with it |
| `Migrations.PlanMeaning` | src/migrate.rs:194-235 | when there is a plan, and otherwise why not: the ledger, the legacy ledger, their first difference, the minimum |
| `Migrations.ValidateRows` | src/migrate.rs:248-286 | the loop reports the first fault in row order |
| `Migrations.ValidateMeaning` | src/migrate.rs:248-286 | validation accepts exactly the prefixes of the list, field for field, that do not reach past the target |
| `Migrations.AdoptMerges` | src/migrate.rs:214-226 | adoption succeeds exactly when one history extends the other and yields the longer one |
| `Migrations.MergeIsHistory` | src/migrate.rs:194-228 | the ledger before pending work is the longer of the two validated histories, adopted rows unchanged |
| `Migrations.PendingMeaning` | src/migrate.rs:236-241 | the pending batch is the contiguous part of the list up to the target |
| `Migrations.Convergence` | src/migrate.rs:229-247 | a successful run leaves rows matching exactly the supplied migrations up to the target, in order |
| `Migrations.RepeatDoesNothing` | src/migrate.rs:194-247 | repeating a run adopts nothing and runs no script |
| `Migrations.PathIndependence` | src/migrate.rs:140-247 | a run to one target and then to a later one, and the direct run, are refused exactly by their minimum, and otherwise run the same scripts and leave the same ledger up to stamps |
| `MigrationRunner.InsertAppends` | src/migrate.rs:243-244 | a row that continues the history is inserted at its end and never collides |
| `MigrationRunner.Session.Execute` | src/transaction.rs:163-224 | whatever the server and the polls do, a statement is acknowledged with its effect on what the transaction sees, or leaves that unchanged |
| `MigrationRunner.Session.Finish` | src/migrate.rs:168-176 | `commit` or `rollback` driven to its answer or dropped |
| `MigrationRunner.Session.Settle` | src/transaction.rs:267-280 | what the server still does after the client is gone changes neither the acknowledgements nor the answer |
| `MigrationRunner.Session.AdoptLegacy` | src/migrate.rs:214-226 | the copying loop leaves the merged ledger, or reports the conflict |
| `MigrationRunner.Session.MergeHistories` | src/migrate.rs:194-228 | validation and adoption compute the merge and leave it in the ledger |
| `MigrationRunner.Session.RunPending` | src/migrate.rs:236-246 | the loop runs exactly the pending scripts, in order, each with its row |
| `MigrationRunner.Session.RunAndRecord` | src/migrate.rs:242-244 | one script and one row at the end of the history |
| `MigrationRunner.Session.Apply` | src/migrate.rs:179-247 | success leaves the planned ledger and log in the transaction; a refusal is the plan's; other namespaces never change |
| `MigrationRunner.Database.RunMigrator` | src/migrate.rs:165-178 | committed is what the transaction published: everything the plan asks for or nothing; success means everything; a refused plan, a definite error or an unsent COMMIT means nothing; `CommitUnknown`, a misread code or a cancelled COMMIT leaves it open; without a plan COMMIT is never sent; only a future that is never polled again ends without an answer; other namespaces never change |
| `MigrationHistory.ExecutedOnce` | src/migrate.rs:165-247 | over any history of runs that each did what `RunMigrator` ensures, with any migrators and outcomes, the scripts executed in a namespace have strictly increasing versions, beyond everything its ledger recorded at the start and all recorded at the end, and its ledger only grew |
| `MigrationHistory.PlanRunsOnce` | src/migrate.rs:229-246 | the scripts of one plan are new to the ledger, increasing, and recorded by the ledger the run leaves |
| `MigrationHistory.MigratesRaises` | src/migrate.rs:165-178 | one run, whatever its outcome, does this to its own namespace and nothing to the others |
| `ConcurrentMigrations.ExactlyOnce` | src/migrate.rs:165-247 | for any concurrent runners and outcomes, a namespace ledger is its starting rows plus what was adopted or run, in version order throughout; the scripts executed are those the log calls run, at most once each, none that the start records, in version order |
| `ConcurrentMigrations.StepMigrates` | src/migrate.rs:179-247 | what any step of the concurrent runners commits raises every namespace as one run does |
| `ConcurrentMigrations.LogTellsWhatRan` | src/migrate.rs:242-244 | the log entries of a published plan name exactly its scripts |
| `ConcurrentMigrations.CommitNeedsAllScripts` | src/migrate.rs:236-246 | only a commit of a runner that holds the lock and has run every script of its plan changes the database |
| `ConcurrentMigrations.LockIsPassedOn` | src/migrate.rs:180-192 | a runner gets the lock exactly when it is free, and whoever ends gives it back |
| `ConcurrentMigrations.RunnerCanMigrate` | src/migrate.rs:165-178 | a runner left alone whose plan can be made migrates |
| `ConcurrentMigrations.StepKeepsOtherNamespaces` | src/migrate.rs:194-244 | no step of a runner changes a namespace other than its own |
| `ConcurrentMigrations.OthersKeepTheNamespace` | src/migrate.rs:194-244 | over any part of a run, a namespace changes only by runners of that namespace |
| `ConcurrentMigrations.RunInv` | src/migrate.rs:179-247 | in every reachable state a working runner holds the lock and its plan was made from the current ledger |
| `Checksums.PreimageDetermines` | src/migrate.rs:36-53 | two admitted migrations hash the same text exactly when version, description and the joined dialect texts agree |
| `Checksums.PreimageReads` | src/migrate.rs:39-46 | the hashed text reads from left to right as decimal version, description and, without NUL in it, SQLite text, then PostgreSQL text |
| `Checksums.PreimageInjective` | src/migrate.rs:36-53 | among migrations without NUL in the SQLite text the hashed text determines the migration |
| `Checksums.CollidesExactlyWithNul` | src/migrate.rs:36-53 | an admitted migration shares its hashed text with one of other dialect texts if and only if its SQLite or its PostgreSQL text contains NUL |
| `Checksums.NulInPostgresTextCollides` | src/migrate.rs:43-46 | a colliding migration whose SQLite text has no NUL |
| `Checksums.AdmittedByTryNew` | src/migrate.rs:117-128 | what `try_new` accepts meets the conditions above |
| `ParameterProbe.ReferencedIsExact` | src/driver.rs:271-300 | the loop computes exactly the referenced count, or nothing when the telling probe fails for another reason |
| `ParameterProbe.ProbeCodes` | src/driver.rs:495-503 | a refused probe counts as a missing type exactly for the six listed codes |
| `ParameterProbe.UnrelatedRefusalHidesTheCount` | src/driver.rs:288-298 | a statement that uses `$1` and whose probe without it is refused because a literal does not parse (22P02): the loop gives up |
| `ParameterProbe.Connection.CountReferenced` | src/driver.rs:271-300 | the loop, with its savepoint undone after a refused probe, finds exactly what the lemmas characterise and leaves the connection as it was |
| `ParameterProbe.Connection.PrepareCounted` | src/driver.rs:239-308 | Ok only for the true count, every reported count is true, and with a live server the outcome is the one its answers decide, errors included |
| `ParameterProbe.Connection.PrepareStatement` | src/driver.rs:583-612 | after Ok or `BindCount` the connection is as on entry but for its last reply: not failed, same savepoints, same pending effects |
| `Pool.IdleConnectionsAreClean` | src/driver.rs:24-34 | in every run, a connection available for reuse has no open transaction and no unfinished statement |
| `Pool.InterruptionIsOwn` | src/driver.rs:505-517 | in every run, a command is interrupted only by the flag of its own statement, after that statement's guard was dropped |
| `Pool.LeaseFate` | src/driver.rs:132-153 | a pooled statement gives its connection back exactly when it executed successfully or, unless a stream, its parameters do not match; it trips its flag exactly when it ends otherwise than executed |
| `Pool.TransactionFate` | src/transaction.rs:267-280 | a transaction gives its connection back exactly when its commit or rollback was answered with success |
| `Pool.DroppedLeaseIsInterrupted` | src/driver.rs:505-517 | a dropped pooled statement closes its connection, and on SQLite what it left running is interrupted |
| `Pool.CancelledStatementIsInterrupted` | src/driver.rs:505-517 | so is a statement cancelled inside a SQLite transaction |
| `Pool.StaleHandlerCanStay` | src/driver.rs:151-152 | a run that leaves a tripped handler on an idle connection |
| `Pool.StepLeaseInv` | src/driver.rs:132-153 | pooled queries and streams keep the line invariant |
| `Pool.StepTxInv` | src/transaction.rs:246-265 | transactions on a pooled connection keep it; control statements remove the handler first |
| `Pool.RunInv` | src/driver.rs:519-580 | the pool invariant holds in every reachable state |
| `RowLocks.StatementMeaning` | src/lock.rs:28-79 | the statement is generated exactly when table and columns are identifiers, columns are distinct, there is a key and every value encodes to non-NULL; else the first failure, or the empty selector |
| `RowLocks.StatementReadsBack` | src/lock.rs:54-79 | read by a reader with its own words, the text asks for the table and columns in order with placeholders `$1..$N`, at most two rows, locked FOR UPDATE exactly on PostgreSQL; the values are in the same order |
| `RowLocks.IdentifierMeans` | src/lock.rs:81-94 | names are exactly one ASCII letter or underscore and up to 62 letters, digits and underscores |
| `RowLocks.BuildMeaning` | src/lock.rs:28-53 | the builder keeps all accepted keys, or the first failure |
| `RowLocks.Lock.constructor` | src/lock.rs:19-27 | a new builder, with the table's fault if it has one |
| `RowLocks.Lock.AddColumn` | src/lock.rs:28-53 | one `key` call, with its search for duplicates |
| `RowLocks.Lock.Generate` | src/lock.rs:54-79 | the loop writes exactly the specified text and values |
| `Timestamps.ValidateTimeMeaning` | src/value.rs:107-118 | admitted are exactly the instants of years 1 to 9999 in whole microseconds |
| `Timestamps.AdmittedAtEveryOffset` | src/value.rs:107-110 | some value is admitted at every offset |
| `Timestamps.TimestampOrder` | src/value.rs:120-132 | 27 characters, text order is time order, equal texts are equal instants, at any source offsets |
| `Timestamps.TimestampRoundTrip` | src/row.rs:94-103 | reading the text as section 5.6 of RFC 3339 defines returns the instant |
| `Timestamps.ReadOffsetOf` | src/row.rs:94-103 | numeric offsets read as section 5.6 of RFC 3339 writes them, positive east |
| `Timestamps.OffsetShifts` | src/value.rs:107-110 | the instant of a local time is earlier by its offset |
| `Calendar.CivilOf` | src/value.rs:121-122 | the calendar fields of every instant, and back |
| `Calendar.MonthTable` | src/value.rs:121-126 | the days before each month, with the leap day |
| `Calendar.KnownYears` | src/value.rs:121-126 | known first days and leap years |
| `Calendar.OrderIsChronological` | src/value.rs:120-132 | comparing fields is comparing instants |
| `ScopedWarehouse.Conservation` | consumers/warehouse/src/lib.rs:89-119 | with every call in its own write scope, over every interleaving of scopes, handles, drops, panics and server moves, stock plus reservations equals the seed for each SKU, stock is never negative, ids are unique, and every reservation is of a positive quantity and a seeded SKU |
| `ScopedWarehouse.ReserveTellsTheTruth` | consumers/warehouse/src/lib.rs:89-119 | a scope that returned Ok has its own commit applied and its row stored; a definite error or an unsent COMMIT means its commit was not applied, and an equal row is that of another applied call; applied calls and rows are one to one, and two calls that returned Ok have different ids |
| `ScopedWarehouse.LockIsTaken` | consumers/warehouse/src/lib.rs:99 | the selector that `reserve` builds is a lock that `write_locking` takes |
| `ScopedWarehouse.FeedFollows` | consumers/warehouse/src/lib.rs:99-118 | the events of a scope's transaction are a call of the warehouse machine and keep its invariant |
| `Warehouse.Conservation` | consumers/warehouse/src/lib.rs:89-119 | the same over every interleaving of concurrent, failing or cancelled transactions |
| `Warehouse.ReserveOutcome` | consumers/warehouse/src/lib.rs:89-119 | success means that the call's own commit was applied and its row is stored; a definite error or an unsent COMMIT means that it was not, and an equal row is that of another applied call; two calls told Ok have different ids |
| `Warehouse.StepKeepsOnce` | consumers/warehouse/src/lib.rs:70-81 | every step keeps one row for each applied call and no id shared by two of them |
| `Warehouse.RowsAreSales` | consumers/warehouse/src/lib.rs:95-97 | every stored reservation is of a positive quantity and a stocked SKU |
| `Warehouse.AdvancePublishes` | consumers/warehouse/src/lib.rs:99-118 | a call that commits held the row lock, had read the current stock and had inserted its reservation |
| `Warehouse.AdvanceVisible` | consumers/warehouse/src/lib.rs:99-118 | a step takes the row lock or an id only when it is free |
| `Warehouse.LockSelectsTheStockRow` | consumers/warehouse/src/lib.rs:99 | the first statement of every call, the lock, selects one stock row by its key, exclusively on PostgreSQL |
| `Warehouse.RunInv` | consumers/warehouse/src/lib.rs:70-119 | locks exclude each other, a holder knows the stock, and the tables balance, in every reachable state |
| `WarehouseWitnesses.StockCanBeReserved` | consumers/warehouse/src/lib.rs:99-118 | every request that the stock allows is served by some run of its transaction |
| `ScopedWitnesses.ReserveCanSucceed` | consumers/warehouse/src/lib.rs:89-119 | every request that the stock allows is served by some run of its write scope, which returns Ok with its row the only one |

## Left out

- sqlx, tokio and async-stream: a mutex with one holder and a fair queue, a stream that ends after its first error, a closed connection that rolls back, are assumed as written in `server.dfy` and `scope.dfy`.
- The futures of write scopes and transactions: a suspended future is a value (its stage), and an interleaving is a sequence of events; the classes show the in-place updates of one atomic action each, not Rust's ownership or aliasing through `Arc`.
- Application SQL contains no transaction control, and a successful reply means that the statement ran to its end; both are assumptions about callers and server.
- The pooled half of `ScopedRows` and reads outside a scope: they are pooled streams and queries, covered by `pool.dfy`.
- `NestedWriteScope` and handles of a different database: one check each, before anything else happens.
- `Lease` and `SqliteCancellation` are values inside the pool machine rather than objects; acquiring a pooled SQLite connection and installing its handler is one step.
- Waiting for a free pooled connection and opening a new one: a connection simply appears.
- The verdict of each probe is a free choice in `transaction.dfy`; what the loop computes is proved in `driver.dfy`, under the assumption that trailing hints the statement does not use never change the server's answer.
- In `migrate_race.dfy` the writer reservation of SQLite and the advisory lock of PostgreSQL are one lock, and commit with its reply is one event; the step by step behaviour of commit is that of `transaction.dfy`.
- In the warehouse, which operations a scope's closure issues is a guard on the events (`Allowed`), in place of the closure's code. Row locks stand for SQLite's reservation of the whole database too, which excludes more. Stock is an unbounded integer; its column is a 64-bit one, and every value stays between zero and the seed.
- `Timestamps.TimestampRoundTrip`: the reader accepts the upper-case `T` only, `Z` in either case, and seconds below 60; the time crate's leap-second handling is not part of this model.
- SHA-256, advisory keys and their collisions: the checksum is an uninterpreted text.
- Clocks: the `applied_at` stamps are a parameter.
- Connection options and URLs, pool setup and the in-memory keeper (`check_lease` is a step that may fail), error display, argument and column conversion by type, UUID, JSON and float codecs, query builders: plumbing or many similar easy cases.
