# Verification of moon-eye's event pipeline

moon-eye keeps a user's transactions in Postgres. Every change of a row writes a `change_events` row in
the same database transaction and then queues a sync job. A projection runner reads the log of change
events and maintains two read models, a monthly summary per currency and type and a monthly balance per
account. Sync jobs merge the user's events with the rows of connected sheets. This project models that
chain and proves what it guarantees, together with the two queues it runs on and the refresh-token
rotation. `dafny verify dfyconfig.toml` covers all files.

Where the code is imperative, the model is a class whose methods change its fields, and each method is
proved equal to a step of a specification (`Ledger.Next`, `Runner.Round`, `StreamQueue.Next`,
`RetryQueue.Next`, `AuthService.Next`, `SheetSync.SyncOne`). The theorems are about whole runs of those
steps, with any interleaving and any failures unless a row names a condition on them.

The last part runs ledger, stream and sync jobs as one system (`SyncPipeline`), with listing, fetching and
writing as steps of their own.

| files | part of the system |
|---|---|
| Ledger, LedgerHistory, LedgerService | transactions table, versioned writes, outbox |
| Projection, Accounting | the two additive read models |
| Runner, RunnerHistory, EndToEnd | the projection loop, and ledger plus loop as one system |
| Decimal, SheetRows, Ordering, Merge, MergeAlgebra | ranks of sheet rows and the merge |
| SheetSync, SyncConvergence, ListingChoice, SyncCoverage, JobRepetition | sync jobs |
| SheetWrites, SyncPipeline, SyncPipelineHistory | ledger, stream and overlapping sync jobs as one system |
| AcknowledgedJobs, StaleWrites, SheetOwners | what an acknowledged job guarantees, a run in which it fails, whose rows are on a sheet |
| RowPayload | sheet rows as keyed payloads and back |
| StreamQueue, RetryQueue | Redis consumer group, Postgres retry queue |
| RefreshToken, AuthService | token text and token rotation |
| Wrappers, Sums, Sorting, Rounding | result types, iteration over maps, finite sums, insertion sort, ceilings |

## How to read the model

- Amounts are integer cents (the column is NUMERIC(18,2), `backend/migrations/0001_init.sql:46`). A live
  row has no deletion time. Times are integers; an occurrence time is a UTC month and an offset in it.
- A `fault` parameter says which foreign call of an operation fails, if any. Clocks, new ids and secrets
  are parameters.
- Several clients share one ledger. The read that an update makes before its transaction and the
  transaction itself are two separate steps, so a client may commit on a stale row.
- Event ids become visible in id order. The runner's `id > $1` query relies on it; BIGSERIAL alone does
  not give it.
- A sheet is a store keyed by RowID, as `backend/internal/sync/service.go:112-114` describes the client.
- The zero deletion time that `backend/internal/service/transaction_service.go:72` gives a new row is taken
  to be stored as NULL, so that a new row is live.
- `backend/internal/db/refresh_token_repository_impl.go:48-55` sends no `updated_at`, which
  `backend/migrations/0005_auth_tokens.sql:21` declares NOT NULL. That a token can be stored at all, and so
  a successful `Login` or `RefreshToken`, is an assumption about the store.
- In `SyncPipeline` a consumer is one running process, whatever name it reads under. For each connection of
  a job it looks up and lists (one step), fetches (one step) and writes (one step, a whole `ApplyChanges`
  call), and anything may happen in between. Connections do not change during a run, and only jobs write
  sheets. How a job's payload is written as JSON text and parsed is a parameter; what needs a payload to be
  read back as it was written says so.
- `SyncPipeline.Client` makes a client's commit and its enqueue one step. The source enqueues after the commit
  (`backend/internal/service/transaction_service.go:106-113`); `AcknowledgedJobs.PublishQueues` covers an
  enqueue as a step of its own, and the theorem on mutations takes either.
- Both programs that sync jobs run in wire a sheets client that does nothing
  (`backend/cmd/api/sync-service/main.go:54`, `backend/cmd/api/worker-service/main.go:102`). The statements
  about sheets hold for any client that behaves as the keyed store above.
- A failing `Process` call has no effect, since it makes one SQL statement. A crash of the runner is a
  failure of its next call.

## Where code and comments differ

- `backend/internal/service/projection/processor.go:5` requires idempotent processors and
  `backend/internal/service/projection/transaction_summary.go:13` says each event is processed once.
  The projectors are additive, and a batch that fails after its first call is applied again.
  `EndToEnd.ExactlyOnceIff` gives the exact condition, `RunnerHistory.WastedRoundCountsTwice` what follows
  where it fails, and `EndToEnd.LostCursorCountsTwice` a run.
- An update adds the new amount and never retracts the old one
  (`backend/internal/service/projection/transaction_summary.go:57-58`). `EndToEnd.CountsAreLiveIff` says
  when the read model still counts live rows, `EndToEnd.ReadModelsAreLivePlusOverwritten` what it holds
  otherwise, and `EndToEnd.UpdateIsCountedTwice` shows the shortest example.
- `backend/internal/sync/service.go:141` says the same sinceVersion gives the same event set. The query
  orders by version alone, so a limit that cuts between equal versions leaves a choice:
  `ListingChoice.SameSetIff`, and `ListingChoice.ManyCreatesLeaveChoice` for a user with more than 1000
  transactions. Job coverage and convergence are stated for whatever the query returned.
- `backend/internal/sync/service.go:112-113` says that one user, connection and sinceVersion run again produce
  the same sheet state. For the same reason they need not: `JobRepetition.RepeatChangesNothingIff` gives the
  exact condition, `JobRepetition.ManyCreatesMakeRepeatsDiffer` the failing input.
- A job reads at most 1000 events, so it does not always bring every row up to date. `SyncCoverage.AlwaysCoveredIff`
  says exactly which rows it does, and `SyncCoverage.ManyCreatesAreNotCovered` gives a run after which it does not.
- `backend/internal/sync/service.go:110-114` calls a sync idempotent under duplicate processing, and an
  acknowledged job is taken as done. But two consumers of the group `sync_workers` run side by side
  (`backend/cmd/api/sync-service/main.go:57-61`, `backend/cmd/api/worker-service/main.go:29-31`), and nothing
  locks a sheet between `FetchChanges` and `ApplyChanges` (`backend/internal/sync/service.go:155-169`). A merge
  made from an older fetch can put a newer row back, also after the newer row's job was acknowledged:
  `StaleWrites.StaleWriteUndoesAcknowledged`. `SheetWrites.WriteLowersIff` and `SheetWrites.OvertakesIff` say
  exactly when one write does so, `AcknowledgedJobs.AlwaysRisingIff` when a run never does, and the theorems on
  acknowledged jobs are about those runs. Every run without overlapping syncs of one sheet is one of them:
  `AcknowledgedJobs.UndisturbedOvertakesNothing`.
- The order of remote rows matters when two different rows of one id tie at the top:
  `MergeAlgebra.OrderIrrelevantIff`, and `MergeAlgebra.OrderCanMatter` for two such rows. Neither of the two
  clients returns two rows of one RowID, so this concerns the function and not a sync as it is wired.
- The Google client writes a row by its numbered columns (`backend/internal/sync/google_sheets_client.go:77-80`),
  and the keys of a row made from an event are "raw", "version" and "createdAt". All parse to column 0, which
  the payload does not have, so every event is written as one empty cell: `RowPayload.LocalRowIsOneEmptyCell`.
- `ListActiveByUser` selects every connection of the user (`backend/internal/db/sync_repositories.go:50-55`),
  although connections have a deletion time (`backend/migrations/0001_init.sql:93`).
  `SheetSync.ListedAreActiveIff` says when that makes no difference, `SheetSync.DeletedIsListed` shows that it can.
- The backoff of `backend/internal/sync/worker.go:117` wraps at 34 attempts: `RetryQueue.OverflowIff`.
- A token with an empty secret does not decode: `RefreshToken.TokenRoundTripIff`.

## Model

| member | source | states |
|---|---|---|
| `LedgerHistory.ReplayRebuildsTable` | backend/internal/service/transaction_service.go:81-101 | After any interleaving of creates, stale reads, updates, deletes and aborts, a strict replay of `change_events` is possible and gives exactly the transactions table |
| `LedgerHistory.NextKeepsInv` | backend/internal/service/transaction_service.go:227-249 | Every step of every client keeps: log replays to table, held rows are stale or exact, event ids ascend, every queued job has its event |
| `LedgerHistory.RunKeepsInv` | backend/internal/service/transaction_service.go:49-116 | The same for whole runs |
| `LedgerHistory.LogShape` | backend/internal/service/transaction_service.go:299-321 | Each entity has exactly the versions 1 to row.version; the first event is its only create, a delete is only the last one and only if the row is deleted; the last payload is the row |
| `LedgerHistory.VersionsAscend` | backend/internal/service/transaction_service.go:235-242 | Events of one entity appear in strictly ascending version order, so (entity, version) names one event |
| `LedgerHistory.VersionBound` | backend/internal/service/transaction_service.go:307-314 | No event names an unknown row, a version above the row's, or another owner |
| `LedgerHistory.UpdateCommitsOnWhatWasRead` | backend/internal/db/sqlc/transactions.sql.go:520-538 | No lost update: an update that reaches the log was made on exactly the row the table held, moves only that row, by one version, to the edited content |
| `LedgerHistory.OnlyOneWinner` | backend/internal/db/sqlc/transactions.sql.go:536-538 | Of two clients holding the same row, once one commits the other cannot, after any further steps in which it does not read again |
| `LedgerHistory.TombstonesAreFrozen` | backend/internal/db/sqlc/transactions.sql.go:465-473 | A soft-deleted row and its history never change again in any run, although the UPDATE does not test `deleted_at` |
| `LedgerHistory.RunMovesForward` | backend/internal/db/sqlc/transactions.sql.go:466-473 | Rows are never removed and never change owner or lose a version |
| `LedgerHistory.RunExtendsLog` | backend/internal/service/transaction_service.go:88-95 | The log only grows at its end |
| `LedgerService.Database.GetTransactionByIdOnly` | backend/internal/db/sqlc/transactions.sql.go:188-211 | Finds live rows only |
| `LedgerService.Database.UpdateTransaction` | backend/internal/db/sqlc/transactions.sql.go:520-576 | Writes exactly when id, user and version match and the type passes the CHECK |
| `LedgerService.Database.SoftDeleteTransactionById` | backend/internal/db/sqlc/transactions.sql.go:465-495 | Marks a live row deleted at the next version, else nothing |
| `LedgerService.TransactionService.FinishTx` | backend/internal/db/tx.go:42-50 | Event insert and commit together, or table and log as they were before the transaction |
| `LedgerService.TransactionService.CreateTransaction` | backend/internal/service/transaction_service.go:81-115 | Exactly when it succeeds; then the row with its defaults, its event and its job, else no change; for whatever rows other clients hold it is one create step |
| `LedgerService.TransactionService.LoadForUpdate` | backend/internal/service/transaction_service.go:170-173 | The read outside the transaction is exactly one load step |
| `LedgerService.TransactionService.CommitUpdate` | backend/internal/service/transaction_service.go:227-261 | Exactly when it commits on an earlier read; then the edited row, its event and its job, else no change; it is one update step |
| `LedgerService.TransactionService.SoftDeleteTransaction` | backend/internal/service/transaction_service.go:297-333 | Exactly when it succeeds; then the marked row at the next version, its event and its job, else no change; it is one delete step |
| `Projection.TransactionSummaryProjector.Project` | backend/internal/service/projection/transaction_summary.go:36-62 | Which events are skipped and which fail, and the bucket that is changed, by user, UTC month, currency and type of the payload, by its amount and one, up or down |
| `Projection.TransactionSummaryProjector.Add` | backend/internal/service/projection/transaction_summary.go:64-74 | The upsert changes one cell by the deltas |
| `Projection.TransactionSummaryProjector.Process` | backend/internal/service/projection/transaction_summary.go:36-62 | The table stays the function of the events applied so far; a failing call applies nothing |
| `Projection.MonthlyBalanceProjector.Project` | backend/internal/service/projection/monthly_balance.go:34-54 | Which events are skipped and which fail, and the balance that is changed, by user, account and UTC month of the payload, by its amount, up or down |
| `Projection.MonthlyBalanceProjector.Add` | backend/internal/service/projection/monthly_balance.go:56-65 | The upsert changes one balance |
| `Projection.MonthlyBalanceProjector.Process` | backend/internal/service/projection/monthly_balance.go:34-54 | The table stays the function of the events applied so far |
| `Projection.SummaryCellIsSigned` | backend/internal/service/projection/transaction_summary.go:52-73 | Every bucket holds the signed sum of amounts and the signed count of the events applied, deletes negative |
| `Projection.BalanceCellIsSigned` | backend/internal/service/projection/monthly_balance.go:44-64 | Every balance holds the signed sum of amounts |
| `Projection.AccountBalance` | backend/internal/service/projection/monthly_balance.go:44-64 | The balance of a user, account and month is the signed sum of the amounts of the events whose payload has that user, account and month |
| `Projection.BucketContents` | backend/internal/service/projection/transaction_summary.go:44-73 | The bucket of a user, month, currency and type is the signed sum and count over the events whose payload has these, an empty currency counting as IDR and an empty type as expense |
| `Projection.ProjectionsAgree` | backend/internal/service/projection/monthly_balance.go:44-64 | For every user and month, summary totals over all currencies and types equal balances over all accounts |
| `Accounting.ProjectionIsLivePlusOverwritten` | backend/internal/service/projection/transaction_summary.go:57-58 | For every measure and every log that replays: signed sum over the log = sum over live rows + sum over the versions that updates have overwritten |
| `Accounting.LiveStep` | backend/internal/service/projection/transaction_summary.go:52-59 | How one accepted event moves the live total: by its delta, less the old content on an update |
| `Accounting.OverwrittenStep` | backend/internal/service/projection/transaction_summary.go:57-58 | An update overwrites exactly one more version, the row it read; nothing else overwrites any |
| `Accounting.NothingOverwritten` | backend/internal/service/projection/transaction_summary.go:52-56 | A history without updates has no overwritten part |
| `Accounting.UpdateLeavesTrace` | backend/internal/service/projection/transaction_summary.go:57-58 | Every update leaves a positive overwritten count in some bucket |
| `Runner.ListChangeEventsSince` | backend/internal/service/projection/source_db.go:20-56 | The scan loop returns the specified page of a log kept in id order; limit 100 when none is given |
| `Runner.EffectiveBatch` | backend/internal/service/projection/runner.go:33-36 | A positive configured size is kept, anything else becomes 50 |
| `Runner.ProjectionRunner.RunProcessors` | backend/internal/service/projection/runner.go:90-96 | Both processors in order, stopping at the first failure |
| `Runner.ProjectionRunner.RunBatch` | backend/internal/service/projection/runner.go:87-103 | The event loop equals the specification of a batch and finds its largest id |
| `Runner.ProjectionRunner.RunRound` | backend/internal/service/projection/runner.go:56-115 | One turn of the loop, for any pattern of failures, is exactly one Round; other cursors are untouched |
| `RunnerHistory.ListSinceIsWindow` | backend/internal/service/projection/source_db.go:20-26 | On a log in id order the query returns the contiguous stretch after the cursor |
| `RunnerHistory.ListSinceIsOrderedPage` | backend/internal/service/projection/source_db.go:20-26 | For a log in id order it is what WHERE, ORDER BY and LIMIT must return: ascending ids above the cursor, at most the limit, everything left out after them |
| `RunnerHistory.OrderedPageUnique` | backend/internal/service/projection/source_db.go:20-26 | There is only one such page, whatever order the rows are kept in |
| `RunnerHistory.BatchShape` | backend/internal/service/projection/runner.go:89-103 | A batch applies a prefix of the events by each processor, the earlier at most one event ahead, and succeeds exactly when both are whole |
| `RunnerHistory.RoundKeepsAtLeastOnce` | backend/internal/service/projection/runner.go:87-115 | A round, however it fails, keeps: all at or below the cursor applied by both; early applications only among the first batch past the cursor; later processor never ahead |
| `RunnerHistory.GrowthKeepsAtLeastOnce` | backend/internal/service/projection/source_db.go:20-26 | New events keep it too |
| `RunnerHistory.ReadModelsAreWeightedSums` | backend/internal/service/projection/transaction_summary.go:64-73 | Each cell is the sum over the log of delta times multiplicity; the earlier processor's multiplicity is never below the later one's |
| `RunnerHistory.RoundInStep` | backend/internal/service/projection/runner.go:105-115 | From an exactly-once state a round ends in one if and only if it is not wasted, that is, unless its first call succeeded and then a call or the cursor write failed |
| `RunnerHistory.WastedRoundCountsTwice` | backend/internal/service/projection/processor.go:5 | The documented idempotency does not hold: after a wasted round the next one applies the same event again |
| `RunnerHistory.DrainInStep` | backend/internal/service/projection/runner.go:87-115 | Without failures and undecodable events, k rounds apply exactly the first min(k*b, n) events |
| `RunnerHistory.DrainedExactlyAfter` | backend/internal/service/projection/runner.go:117-124 | Without failures and undecodable events, a log of n events is drained from round ceil(n/b) on, and not before |
| `RunnerHistory.BatchSizeDoesNotMatter` | backend/internal/service/projection/runner.go:33-36 | Without failures and undecodable events, any two positive batch sizes end in the same cursor and read models |
| `RunnerHistory.CursorAdvances` | backend/internal/service/projection/runner.go:105-106 | A round without failures that finds decodable events moves the cursor up |
| `EndToEnd.AlwaysAtLeastOnce` | backend/internal/service/projection/runner.go:87-115 | At-least-once delivery in every interleaving of client steps and rounds, for any failures |
| `EndToEnd.ExactlyOnceIff` | backend/internal/service/projection/transaction_summary.go:13 | Exactly-once delivery holds at every point of a run if and only if no round of it is wasted |
| `EndToEnd.FailureFreeHasNoWaste` | backend/internal/service/projection/runner.go:89-106 | Runs without failures of the projection loop waste no round |
| `EndToEnd.ReadModelsAreLivePlusOverwritten` | backend/internal/service/projection/transaction_summary.go:52-73 | In a run without wasted rounds, once the cursor has caught up, every cell of both read models is the aggregate over live rows plus exactly the aggregate over versions overwritten by updates |
| `EndToEnd.UpdateFreeIsExact` | backend/internal/service/projection/transaction_summary.go:52-56 | In a run without wasted rounds and updates, once the cursor has caught up, the read models are the aggregates of the live table |
| `EndToEnd.CountsAreLiveIff` | backend/internal/service/projection/transaction_summary.go:57-58 | In a run without wasted rounds, once the cursor has caught up, the summary counts the live rows in every bucket if and only if the history has no update |
| `EndToEnd.UpdateIsCountedTwice` | backend/internal/service/projection/transaction_summary.go:57-58 | One create and one update of one row give a bucket with count 2 and twice the amount |
| `EndToEnd.LostCursorCountsTwice` | backend/internal/service/projection/runner.go:105-108 | One create, one round whose cursor write fails and one round without failures: the table holds one row, its bucket counts two |
| `EndToEnd.LostCursorIsWaste` | backend/internal/service/projection/runner.go:105-108 | That run has a wasted round |
| `EndToEnd.UserMonthTotalsAgree` | backend/internal/service/projection/monthly_balance.go:44-64 | Cross-projection conservation at every point of a run without wasted rounds |
| `Merge.MergeById` | backend/internal/sync/merge.go:58-77 | The two loops equal two folds over a keyed map |
| `Merge.SortedIds` | backend/internal/sync/merge.go:78-82 | The id list is the keys in ascending order, whatever the map iteration order |
| `Merge.MergeSheetRows` | backend/internal/sync/merge.go:57-88 | The method equals the specification function Merged |
| `Merge.LastLocalMeans` | backend/internal/sync/merge.go:59-61 | The first loop keeps the last local row of each id |
| `Merge.AddRemoteMeans` | backend/internal/sync/merge.go:62-77 | Each id ends with its winner among the last local row and all remote rows |
| `Merge.WinnerUnique` | backend/internal/sync/merge.go:68-76 | Being the winner determines the row |
| `Merge.MergeMeans` | backend/internal/sync/merge.go:54-88 | The output is strictly sorted by RowID, covers exactly the union of ids, and each row is the maximum by (version, createdAt), local first on ties, then the earliest remote |
| `Merge.MergeKeepsMaximum` | backend/internal/sync/merge.go:62-77 | No remote row and no last local row has a higher version than the row of its id in the output, or at its version a later time |
| `Merge.LocalStaysIff` | backend/internal/sync/merge.go:62-77 | The last local row of an id is in the output exactly if no remote row of the id has a higher version or, at its version, a later time |
| `Merge.EarliestMaximumWins` | backend/internal/sync/merge.go:62-77 | A remote row that is the earliest of the highest version and latest time of its id, and above the local row, is in the output |
| `Ordering.LessMeans` | backend/internal/sync/merge.go:82 | The order of the ids: the smaller character at the first difference, and a proper prefix first |
| `SheetRows.VersionIsRead` | backend/internal/sync/merge.go:11-29 | The version is that of cell "version", or of "1" if that holds nothing usable: integers as they are, floating-point cut towards zero, text parsed, else 0 |
| `SheetRows.CreatedAtIsRead` | backend/internal/sync/merge.go:34-47 | The time is that of "createdAt", or of "2" if that holds nothing usable; a text counts if it parses to a time other than zero |
| `SheetRows.CreatedAtFromVersion` | backend/internal/sync/merge.go:48-51 | Otherwise a positive version counts as seconds since 1970, with the 64-bit wrap-around, and without one the time is zero |
| `MergeAlgebra.MergeSplits` | backend/internal/sync/merge.go:57-88 | Merge(l, r1 + r2) = Merge(Merge(l, r1), r2) |
| `MergeAlgebra.MergeIsIdempotent` | backend/internal/sync/merge.go:56 | Merge(l, Merge(l, r)) = Merge(l, r) |
| `MergeAlgebra.OrderIrrelevantIff` | backend/internal/sync/merge.go:62-77 | The order of remote rows is irrelevant if and only if no id has two different remote rows at its top rank |
| `MergeAlgebra.OrderCanMatter` | backend/internal/sync/merge.go:62-77 | Two different remote rows of one id without version and time are such a case, and the two orders give different merges |
| `MergeAlgebra.AddRemoteIsJoin` | backend/internal/sync/service.go:155-162 | With one remote row per id the merge is an id-by-id join, whatever order they come in |
| `RowPayload.FetchedRowRank` | backend/internal/sync/merge.go:11-52 | A fetched sheet row is ranked by its columns 1 and 2 and by nothing else |
| `RowPayload.VersionReadsBack` | backend/internal/sync/merge.go:23-25 | A version written as decimal text is read back unchanged |
| `Sorting.Sort` | backend/internal/sync/merge.go:82 | Sorted permutation, for any total preorder; used for the ids, the column indices and the version order |
| `SheetSync.ListTransactionEventsSince` | backend/internal/db/sync_repositories.go:142-178 | The user's own transaction events above sinceVersion, in version order, no two alike, at most the limit; everything left out at least as new, and nothing left out below the limit |
| `SheetSync.NewestEventEntersMerge` | backend/internal/sync/service.go:147-153 | The local row entering the merge is the entity's highest-version listed event, also when the list is truncated |
| `SheetSync.SyncService.ListActiveByUser` | backend/internal/db/sync_repositories.go:50-55 | Exactly the user's connections, whether they have a deletion time or not |
| `SheetSync.ListedAreActiveIff` | backend/internal/db/sync_repositories.go:50-55 | What it returns are exactly the active connections if and only if the user has no deleted one |
| `SheetSync.DeletedIsListed` | backend/internal/db/sync_repositories.go:50-55 | A user whose one connection is deleted has it listed |
| `SheetSync.SyncService.SyncUserTransactions` | backend/internal/sync/service.go:120-171 | One sync: refused for an unknown or foreign connection, otherwise exactly SyncOne with the events it listed |
| `SheetSync.SyncService.SyncEach` | backend/internal/sync/service.go:102-107 | Connections in order until one fails; each task is the sheet of its connection and a listing of the user's events |
| `SheetSync.SyncService.HandleSyncJob` | backend/internal/sync/service.go:83-108 | One connection, or every connection of the user; whether it fails or not, the tasks attempted are those of the first connections, in order, and the sheets are what that fan-out leaves; if no call fails it succeeds exactly when it is not refused |
| `SheetSync.JobInFields` | backend/internal/sync/service.go:83-142 | A job is refused, has its targets and its tasks by the user id of the connections; each task is its connection's sheet and a listing of at most 1000 of the job's user's events |
| `SheetSync.SyncService.ApplyChanges` | backend/internal/sync/service.go:112-114 | Keyed upsert of all rows, or of exactly the first n when the client fails after n |
| `SheetSync.FullWriteReachesTarget` | backend/internal/sync/service.go:162-169 | Writing the merge back makes the sheet equal to it |
| `SyncConvergence.TwoJobsCommute` | backend/internal/sync/service.go:141-169 | Two jobs over one log in which (entity, version) names one event, one after the other in either order, leave the same sheets |
| `SyncConvergence.JobTwice` | backend/internal/sync/service.go:155-169 | A job processed again with the same events changes nothing |
| `JobRepetition.RepeatChangesNothingIff` | backend/internal/sync/service.go:110-114 | Over one log in which (entity, version) names one event: the same user, connection and sinceVersion run again, with whatever events the two runs list, leaves every sheet as it was if and only if everything selected fits under the limit or the limit falls on a version boundary |
| `JobRepetition.ManyCreatesMakeRepeatsDiffer` | backend/internal/sync/service.go:110-114 | After more creates by one user than the limit it need not |
| `SyncConvergence.SyncConverges` | backend/internal/sync/service.go:110-119 | Over one such log, any two series with the same jobs (a sheet and the events listed for it), each at least once, in any order and number, leave the same sheets |
| `SyncConvergence.FailedSyncIsRepaired` | backend/internal/sync/service.go:165-169 | However one sync failed, part-way writes included, repeating it with the same events reaches the state of one that did not |
| `SyncConvergence.SuccessIsSynced` | backend/internal/sync/service.go:165-170 | A sync that reports success has written the whole merge |
| `SyncConvergence.FanOutSyncsPrefix` | backend/internal/sync/service.go:102-107 | A fan-out that fails has fully synced exactly a prefix of the sheets and not touched those after the failing one |
| `SyncConvergence.RetryRepairs` | backend/internal/sync/service.go:97-107 | Over one such log, re-running the job on the same events ends as one uninterrupted run |
| `SyncConvergence.FanOutFailureSticks` | backend/internal/sync/service.go:102-106 | What a job did up to its failure is all it did |
| `SyncConvergence.FailedPrefixIsRepaired` | backend/internal/sync/service.go:97-107 | A job that failed after attempting only a prefix of its tasks is repaired by running all of them |
| `SyncConvergence.EventualSuccess` | backend/internal/sync/service.go:97-107 | So do any number of failed attempts followed by a successful one, whoever makes them |
| `SyncCoverage.LedgerVersionsAreUnique` | backend/internal/service/transaction_service.go:235-242 | Every ledger log has the uniqueness that convergence needs |
| `SyncCoverage.QueuedJobSelectsItsEvent` | backend/internal/service/transaction_service.go:253-259 | The event of every queued job's mutation is in the log, then and in every later state, with a version just above the job's sinceVersion |
| `SyncCoverage.RowReachesListedEvents` | backend/internal/sync/service.go:147-169 | After a job no row is below the newest event listed for it, truncated or not |
| `SyncCoverage.JobCoversTable` | backend/internal/sync/service.go:142-169 | If the selected events up to the table's version of a row fit under the limit of 1000, a job leaves the sheet's row at or above that version |
| `SyncCoverage.AlwaysCoveredIff` | backend/internal/sync/service.go:142-169 | Every possible run of a job on any sheet does so if and only if those events fit under the limit |
| `SyncCoverage.ManyCreatesAreNotCovered` | backend/internal/sync/service.go:142 | After more than 1000 creates by one user, every row is due for the first job and none is covered by every run of it |
| `SyncCoverage.QueuedJobCoversItsRow` | backend/internal/service/transaction_service.go:106-113 | When a queued job is processed, its mutation's sheet row ends at or above the version the table then holds, if the selected events up to that version fit under the limit; at or above the mutation's own version, if those up to it fit |
| `SyncCoverage.JobMakesRowCurrent` | backend/internal/sync/service.go:147-169 | On sheets only jobs have written, the row becomes exactly the table's row, if the selected events up to its version fit under the limit |
| `ListingChoice.ListingIsComplete` | backend/internal/db/sync_repositories.go:143-151 | With at most `limit` selected events the listing holds all of them |
| `ListingChoice.AlwaysListedIff` | backend/internal/db/sync_repositories.go:143-151 | A selected event is in every possible listing if and only if the selected events up to its version fit under the limit |
| `ListingChoice.SameSetIff` | backend/internal/sync/service.go:141 | "Same sinceVersion, same event set" holds if and only if everything fits under the limit or the limit falls on a version boundary |
| `ListingChoice.ManyCreatesLeaveChoice` | backend/internal/sync/service.go:141 | After more creates by one user than the limit it does not hold |
| `SheetWrites.WriteLowersIff` | backend/internal/sync/service.go:165-169 | A write of merged rows to a sheet that may have changed since it was fetched lowers a row of some sheet if and only if it writes a row below the version the sheet has now |
| `SheetWrites.OvertakesIff` | backend/internal/sync/merge.go:62-77 | A merged row is below the present one exactly if the present one is above both the local and the fetched row it was merged from |
| `SheetWrites.SyncOneRises` | backend/internal/sync/service.go:155-169 | A sync that nothing disturbs between its fetch and its write, whole or broken off, lowers no row of any sheet |
| `SyncPipelineHistory.NextKeepsInv` | backend/internal/queue/queue.go:120-131 | Every step of clients, consumers, listings, fetches, writes and crashes, overlapping in any way, keeps: acknowledged entries are finished jobs, no connection of a job is forgotten, what was listed is a listing of a log between the job's beginning and now, and a fetched sheet that nobody has written since is still what it was |
| `SyncPipelineHistory.RunKeepsInv` | backend/internal/sync/service.go:83-108 | The same for whole runs |
| `AcknowledgedJobs.AlwaysRisingIff` | backend/internal/sync/service.go:155-169 | No row of any sheet goes down along a run if and only if no step of it writes an overtaken row |
| `AcknowledgedJobs.UndisturbedOvertakesNothing` | backend/internal/sync/service.go:155-169 | Nothing is overtaken in a run in which no other write to a sheet falls between a consumer's fetch of it and its own write |
| `SheetOwners.SheetsHoldOnlyTheirOwnersRows` | backend/internal/sync/service.go:131-169 | In every state of every run, however jobs overlap and whatever fails, each row on a sheet has the id, version, time and payload of a logged transaction event whose user owns a connection to that sheet |
| `AcknowledgedJobs.AcknowledgedJobReachedItsSheets` | backend/internal/sync/service.go:83-108 | In every run without overtaken writes, an acknowledged job belongs to a user who owns its connections; for each of them it read a log no older than the one work began with and no newer than the one at the acknowledgement; and at the end of the run each row of that user that was due when work began is on the connection's sheet, at or above the version the table held then, unless more than 1000 selected events of the log that was read lie at or below that version |
| `AcknowledgedJobs.AcknowledgedMutationIsOnSheets` | backend/internal/service/transaction_service.go:253-259 | In every run without overtaken writes, once the stream entry of the job of a committed event is acknowledged, at the end of the run, however far it goes on, the event's row is on every sheet of the user, at or above the version the table held when work on the job began, which is at or above the event's own, if at the acknowledgement at most 1000 selected events lay at or below that version |
| `AcknowledgedJobs.CommitQueues` | backend/internal/service/sync_queue_redis.go:21-30 | Every client step that queues a job commits one event and puts behind all earlier stream entries a message with its operation, its user and the version just below its own; a consumer reads the payload back if parsing inverts writing on it |
| `AcknowledgedJobs.PublishQueues` | backend/internal/service/transaction_service.go:106-113 | So does a client that enqueues the job of an event in a step of its own, any time after the commit |
| `StaleWrites.StaleWriteUndoesAcknowledged` | backend/internal/sync/service.go:155-169 | A run of fourteen steps in which the job of version 2 is acknowledged and the sheet ends at version 1: one consumer fetches before a second one syncs the newer version, and writes after it |
| `RowPayload.RowToPayload` | backend/internal/sync/google_sheets_client.go:47-50 | The payload holds exactly the row's cells under their column numbers |
| `RowPayload.RowsToChanges` | backend/internal/sync/google_sheets_client.go:40-55 | One change per data row, header left out, with 1-based row numbers as ids |
| `RowPayload.OrderedSliceByIndex` | backend/pkg/shared/mapx/mapx.go:11-31 | Empty slice for an empty payload; run-time panic exactly for a negative or maximal index; otherwise length max+1 and every cell as specified |
| `RowPayload.OrderedSliceUnique` | backend/pkg/shared/mapx/mapx.go:11-31 | That specification determines the result |
| `RowPayload.OrderedSliceMeans` | backend/pkg/shared/mapx/mapx.go:11-31 | In terms of keys and cells: it panics exactly for a parsed key below 0 or of the largest int64; otherwise each cell is the one under its decimal key, or an empty string where that is missing or nil |
| `RowPayload.RowRoundTrip` | backend/pkg/shared/mapx/mapx.go:21-30 | Row to payload to row is the identity on rows of non-nil cells |
| `RowPayload.CanonicalPayload` | backend/pkg/shared/mapx/mapx.go:21-30 | For canonical keys the row has length max+1 and empty strings exactly in the gaps |
| `RowPayload.LocalRowIsOneEmptyCell` | backend/internal/sync/google_sheets_client.go:77-80 | The row that the Google client writes for an event is a single empty cell |
| `Decimal.ParseOfItoa` | backend/pkg/shared/mapx/mapx.go:17 | Atoi inverts Itoa on all 64-bit integers |
| `Decimal.ParseSaturates` | backend/internal/sync/merge.go:24 | A number beyond 64 bits parses to the nearest bound, with an error |
| `Decimal.ItoaInjective` | backend/pkg/shared/mapx/mapx.go:23 | Different columns have different keys |
| `StreamQueue.DecodeInvertsEncode` | backend/internal/queue/queue.go:148-181 | What is read off the stream is the message that was added, for 64-bit retry counts; a negative one comes back as 0 |
| `StreamQueue.NextKeepsInv` | backend/internal/queue/queue.go:99-133 | Every step of every consumer keeps conservation, at-most-once handling and acknowledgement only after success |
| `StreamQueue.EveryRunDelivers` | backend/internal/queue/queue.go:94-134 | With any number of consumers: each entry is exactly one of undelivered, pending or acknowledged; handled at most once; acknowledged only after its handler succeeded |
| `StreamQueue.OutcomesStick` | backend/internal/queue/queue.go:124-130 | Without lost acknowledgements, success means acknowledged and failure means pending for good |
| `StreamQueue.ReadTakesNext` | backend/internal/queue/queue.go:106-112 | A read takes the next entries, ten at most, in stream order, and they are pending in the reader's name |
| `StreamQueue.RedisStreamQueue.TurnMeans` | backend/internal/queue/queue.go:106-132 | A whole turn handles the entries it read once each and in order, and acknowledges exactly those whose handler succeeded and whose acknowledgement was not lost |
| `StreamQueue.RedisStreamQueue.EnqueueMessage` | backend/internal/queue/queue.go:74-90 | The call is one Enqueue step, or none and an error |
| `StreamQueue.RedisStreamQueue.HandleNext` | backend/internal/queue/queue.go:122-130 | Handler, then acknowledgement on success, is one Handle step |
| `StreamQueue.RedisStreamQueue.ConsumeTurn` | backend/internal/queue/queue.go:106-132 | One undisturbed turn of the loop is one read of up to 10 entries and one Handle for each |
| `RetryQueue.OverflowIff` | backend/internal/sync/worker.go:117 | The backoffs in use never overflow int64 nanoseconds if and only if max_attempts is at most 34 |
| `RetryQueue.BackoffIsExact` | backend/internal/sync/worker.go:117 | Up to 33 attempts the backoff is 2^k seconds |
| `RetryQueue.BackoffIsModular` | backend/internal/sync/worker.go:117 | For every number of attempts the backoff is the 64-bit remainder of 2^k seconds |
| `RetryQueue.BackoffWraps` | backend/internal/sync/worker.go:117 | At 34 it is negative |
| `RetryQueue.NotPickedEarly` | backend/internal/sync/worker.go:115-136 | In every run, after k failures, k below max_attempts and max_attempts at most 34, an item is not picked again before 2^(k+1) - 2 seconds after its first failure |
| `RetryQueue.DeletedOnlyAfterSuccess` | backend/internal/sync/worker.go:92-97 | An item leaves the queue only after success |
| `RetryQueue.SuccessRemovesForGood` | backend/internal/sync/worker.go:92-97 | An item that was processed and deleted is not in the queue at any later point of any run |
| `RetryQueue.FailurePostpones` | backend/internal/sync/worker.go:115-136 | A recorded failure makes the item available exactly 2^n seconds later at its n-th attempt, n at most 33, or at once from max_attempts on |
| `RetryQueue.SyncWorker.PickItem` | backend/internal/sync/worker.go:58-65 | An available item such that none has been available longer, or none if none is available |
| `RetryQueue.SyncWorker.MarkAttemptFailure` | backend/internal/sync/worker.go:115-136 | One more attempt and the backed-off or immediate availability |
| `RetryQueue.SyncWorker.ConsumeOnce` | backend/internal/sync/worker.go:46-98 | One tick on the item available longest: success deletes it, failure counts one attempt and sets the exact next availability, a lost database call changes no item, and no other item is touched |
| `RefreshToken.UuidRoundTrip` | backend/pkg/shared/auth/refresh_token.go:23 | UUID text (section 4 of RFC 9562) parses back |
| `RefreshToken.GroupsRoundTrip` | backend/pkg/shared/auth/refresh_token.go:27 | Padded base64 (section 4 of RFC 4648) decodes back, for every byte sequence |
| `RefreshToken.TokenRoundTripIff` | backend/pkg/shared/auth/refresh_token.go:12-32 | Decode inverts encode if and only if the secret is not empty |
| `RefreshToken.TokenLayout` | backend/pkg/shared/auth/refresh_token.go:11-13 | Hexadecimal groups of 8, 4, 4, 4 and 12 digits, a colon, and the padded base64 of the secret |
| `RefreshToken.MalformedIsRejected` | backend/pkg/shared/auth/refresh_token.go:17-21 | Nothing without a colon, before the first colon or after it decodes to a token |
| `AuthService.EveryRunRotates` | backend/internal/service/auth_service.go:140-206 | In every run of serialised calls each login chain has at most one unrevoked token, and all its tokens belong to the user who logged in |
| `AuthService.RevocationIsPermanent` | backend/internal/service/auth_service.go:195-200 | Rows are never removed, revocation is permanent, nothing else of a row changes |
| `AuthService.ExchangedTokenIsDead` | backend/internal/service/auth_service.go:195-200 | A token exchanged once is never accepted again, whatever follows |
| `AuthService.NewTokenIsAccepted` | backend/internal/service/auth_service.go:204-205 | The token text that a refresh hands out is accepted next exactly until it expires, if its secret is not empty |
| `AuthService.LoginTokenIsAccepted` | backend/internal/service/auth_service.go:117-137 | So is the token text that a login hands out, for the user who logged in and for seven days |
| `AuthService.RefreshExchanges` | backend/internal/service/auth_service.go:181-203 | A refresh revokes exactly the token it was given and adds one of the same user and login chain |
| `AuthService.RevokedTokenIsDead` | backend/internal/service/auth_service.go:208-214 | A known token that was revoked is never accepted again, whatever follows, and no other row changes with it |
| `AuthService.Service.Login` | backend/internal/service/auth_service.go:92-138 | When it succeeds, and then the one new token, for seven days; one Authenticate step |
| `AuthService.Service.Check` | backend/internal/service/auth_service.go:141-167 | The checks accept exactly known, unrevoked, unexpired tokens with the right secret |
| `AuthService.Service.RefreshToken` | backend/internal/service/auth_service.go:140-206 | Both writes, the revocation of the token presented and its successor for seven days, or none; one Refresh step |
| `AuthService.Service.RevokeToken` | backend/internal/service/auth_service.go:208-214 | The row of the token's id is revoked and nothing else changes; an undecodable token or a failing call changes nothing |

## Left out

- LedgerService.TransactionService.CommitUpdate: `UpdateTransaction` is two members, `LoadForUpdate` and `CommitUpdate`, so that other clients can run between its read and its transaction.
- Runner.ProjectionRunner.RunProcessors: the processor list is the two projectors that `backend/cmd/api/worker-service/main.go:68` wires, not any list.
- Runner.ListChangeEventsSince: it scans a log kept in id order, which every run of the ledger keeps; `RunnerHistory.OrderedPageUnique` says that the ordering query could return nothing else.
- Runner.ProjectionRunner.RunRound: the endless loop of `Start` is modelled turn by turn, the event loop of a turn as `RunBatch`; waiting and cancellation have no effect on the state. One runner instance per name.
- StreamQueue.RedisStreamQueue.ConsumeTurn: the endless loop of `Consume` is modelled turn by turn, and a turn as a whole only when no other consumer steps in between; `StreamQueue.EveryRunDelivers` and `SyncPipeline` interleave single steps. The consumer group exists. Pending entries are never read again by this code, so nothing is claimed about them after a failure.
- RetryQueue.NotPickedEarly: one worker and one clock; what happens to items past max_attempts is not claimed, since the pick query has no test for it. Item ids come from a sequence and are never 0. Other workers, and row locks between them, are not modelled.
- AuthService.EveryRunRotates: calls are serialised. Two overlapping refreshes of one token both read it as unrevoked, so the property is not claimed for them.
- AuthService.Service.Login: the user lookup and the password comparison are one optional user, since both are calls into other code.
- RefreshToken.UuidRoundTrip: only canonical UUID text is parsed; the other spellings that the UUID library accepts are not modelled.
- RowPayload.OrderedSliceByIndex: memory limits for very long slices are not modelled.
- SheetSync.SyncService.FetchChanges: the Google client uses sheet row numbers as RowIDs and writes cells by position, so it is not the keyed store; only its row-to-payload loop is modelled (`RowPayload`).
- SheetSync.SyncService.SyncUserTransactions: errors of the connection, mapping, event and fetch calls are one fault before the write; `mode` and the fetch cursor are ignored by the code and absent here.
- Parsing of RFC 3339 times: a text cell carries what the library call gives for it.
- Conversion of out-of-range floating-point versions to int64, which the language leaves to the platform.
- Floating-point amounts, `pgtype` and JSON conversions, and the width of CHAR columns.
- Foreign keys of the tables, and audit columns `created_at` and `updated_at` of transactions.
- The paths without a transaction runner, where create writes no event and update and delete ignore event errors.
- Checks that a transaction belongs to the calling user: `GetByID` is modelled as the query it makes, by id alone.
- Listing, filtering and pagination totals: plain queries, and the total is not a count.
- Registration, password hashes, token encryption, access tokens and randomness: calls into other libraries. A stored secret is the secret itself.
- HTTP handlers, configuration, logging, metrics, `main` packages, and the web and mobile clients: no state of this pipeline.
