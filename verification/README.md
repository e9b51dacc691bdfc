# Verified model of the bulk import/export service

A Dafny 4.11 model of a multi-node service that imports users, articles and comments from CSV,
NDJSON and JSON files in batches and exports them again, with proofs of what its engine, its job
protocol, its locks and its text codecs guarantee. `dafny verify dfyconfig.toml` checks it all.

| file | content |
|---|---|
| `Upserts.dfy` | a batch of rows upserted into a table with a unique key: fast form, simple form, refinement, counting |
| `Imports.dfy` | the meaning of an import: validation, one transaction per batch, totals with the full error list |
| `ImportsService.dfy` | the service as it runs: mutable counters, capped error lists, lookup and seen maps, savepoints, three file loops |
| `ImportFiles.dfy` | counters over whole files; CSV against JSON |
| `BatchResults.dfy` | why rows are refused, how many are saved, what transactions, batches and runs return, under any faults |
| `QuietImports.dfy` | what fault-free batches and files store and return |
| `Reimport.dfy` | what an import leaves in the tables, and importing the same file again |
| `ImportProcessor.dfy` | one undisturbed call of `processImport`, from lock to release |
| `ImportJobs.dfy` | the job row, its guarded status changes, the stale-job cleanup |
| `JobProtocol.dfy` | runs of any number of nodes with crashes, lock expiry, redelivery and cleanup |
| `JobLocks.dfy` | what the Redis lock gives those runs: overlap only after expiry, none with timely renewals |
| `JobCleanup.dfy` | cleanup and finalization over those runs: healthy jobs cleaned, whose run is finalized |
| `DistributedLock.dfy` | the Redis lock: runs of all nodes, renewal timing, the retrying service |
| `StreamUtils.dfy`, `TextLines.dfy` | batching, NDJSON parsing and writing, line reading, over `split` and `trim` |
| `RateLimit.dfy` | the rate limiter, with rounding clocks and early timers |
| `CsvExport.dfy`, `RecordExport.dfy` | CSV writing with readers for the rules of RFC 4180; filters, paging, formatting, whole exports |
| `Slugs.dfy` | the slug normaliser and validator |
| `Wrappers.dfy` | shared result types |

How the surroundings enter:

- Faults are parameters. A row's savepoint, lookup, save, release and rollback may each throw any
  message, as may a batch's begin, lookup, commit, rollback, connection release and progress update
  (`RowEnv`, `BatchEnv`); generated ids are part of the same parameters.
- `save` of an entity with an id is TypeORM's: an update if the id is stored, else an insert, refused
  when another row holds the email or slug.
- Record validation, lower-casing, `JSON.parse` and `JSON.stringify` are arbitrary functions; what is
  assumed of them stands in the `requires` of the lemmas that need it. Emails are compared for repeats
  under the lower-casing function and stored as they are.
- Batch sizes are at least 1; the configuration admits 100 to 10000
  (`src/config/config.validation.ts:96-99`).
- Methods in classes are proved against functions; the lemmas are about those functions. For the
  error list the functions keep everything and the methods cap, in the source's three places.
- Whatever other nodes and the clock do is a step or an event of a run (`JobProtocol`,
  `DistributedLock`). A lost reply may leave its command applied. Every delivery draws a lock token
  that was never drawn before, as UUIDs are.
- The writes of `JobTable` and the steps of `JobProtocol` are the same functions on rows (`WithStart`,
  `WithEnd`, `WithProgress`, `WithCleanup` in `ImportJobs`).

Findings, each with a proof:

- With a separate scan and write, cleanup can overwrite a job that has completed meanwhile
  (`JobProtocol.SplitCleanupOverwritesCompleted`); the exact condition is `OnlyLateCleanupMovesTerminal`.
- README.md of the repository promises re-import without duplicates. For users and articles it fails
  when a row renames another's by supplying its id (`Reimport.RenameBreaksReimport`). It holds if every
  key the file decides is stored after the first import, and, where rows for missing keys supply no
  stored id, only if (`Reimport.ReimportIsIdempotent`). For comments it holds exactly when every comment
  added carries its own id (`Reimport.CommentReimportIdempotentIffIdentified`).
- A throwing RELEASE SAVEPOINT counts a row as successful and failed (`Imports.ReleaseThrowCountsTwice`),
  a throwing COMMIT counts a whole batch again, together up to three times
  (`Imports.CommitThrowCountsAgain`); how much is counted twice, and when nothing is, is exact in
  `Imports.UpsertRecordsCounts`.
- An id supplied on a new row that belongs to another stored row renames that row, and the lookup map
  of the batch is then out of date (`Upserts.IdClashBreaksRefinement`); the batches on which that
  can show are exactly those excluded by `Upserts.RefinesIffUntaken`.
- A job's lock that runs out lets a second node execute the job once cleanup has reset it
  (`JobLocks.ExpiredLockLetsTwoExecute`); so does a shutdown, whose release is a get and a separate
  del (`JobLocks.ShutdownLetsTwoExecute`), and nothing else (`JobLocks.OverlapNeedsExpiry`). The first node
  may then complete the second one's run with its own counters (`JobCleanup.CompletesAnothersRun`); with
  renewals in time it cannot (`JobCleanup.FinalizesItsOwnRun`).
- The stamps cleanup looks at are never renewed, so that a job that runs longer than a threshold is
  cleaned while its node is alive and holds the lock (`JobCleanup.CleanupLooksAtTheStartOnly`,
  `JobCleanup.HealthyJobTurnsStale`); its batches stay, its completion is lost
  (`JobCleanup.CleanedRunIsLost`).
- A job whose start commits but whose connection cannot be given back stays PROCESSING without being
  run, until cleanup finds it (`ImportProcessor.ProcessImport`).
- A carriage return at the end of an unquoted last CSV cell is lost to readers that also end records
  at CRLF (`CsvExport.ReadCsvText`).
- A request that filters comments by update time fails, since comments have no such
  column (`RecordExport.BuildQuery`).

## Model

| member | source | states |
|---|---|---|
| `Upserts.RefinesIffUntaken` | src/modules/imports/imports.service.ts:928-1163 | for every table and batch: reading the keys once before the loop (lookup map, seen map, savepoints) ends with the same table, counts and errors as reading the current table for each row, under all faults and all fresh ids, if and only if no new row supplies the id of a stored row that a later tried row of the batch is to update without supplying that id itself |
| `Upserts.BatchRefinesRowByRow` | src/modules/imports/imports.service.ts:928-1163 | for one given run of the surroundings, generated ids included and fresh or not, the two forms agree whenever a row that takes the id a later row is to update has that id as its new id too |
| `Upserts.FastIsSlow` | src/modules/imports/imports.service.ts:948-1025 | the same from any row of the batch on, for any table in which the rows still to be tried lead to the ids they led to before the batch |
| `Upserts.IdClashBreaksRefinement` | src/modules/imports/imports.service.ts:976-990 | in any table, for any two keys, ids and accepted rows, a batch on which the two forms end with different tables |
| `Upserts.KeysStayUnique` | src/modules/imports/imports.service.ts:928-1163 | no batch, clash or not, faults or not, ends with two rows under one email or slug |
| `Upserts.SaveDisturbsNoOtherKey` | src/modules/imports/imports.service.ts:965-990 | saving under the stored or an unused id succeeds and changes the lookup of no other key |
| `Upserts.RepeatErrorsNameTheFirstRow` | src/modules/imports/imports.service.ts:951-962 | every duplicate-in-file error names a row that repeats an earlier one and the line of the first row under that key |
| `Upserts.FastFoldCounts` | src/modules/imports/imports.service.ts:928-1163 | users and articles: successful + failed grows by exactly the number of rows and of those whose RELEASE throws after their save; one error per failure |
| `Upserts.CommentFoldCounts` | src/modules/imports/imports.service.ts:1168-1277 | the same equality for comments |
| `BatchResults.UserRefusals` | src/modules/imports/imports.service.ts:951-962 | under any faults a user row is refused as a repeat if and only if an earlier row of the batch has the same email but for case, and never for a reference |
| `BatchResults.ArticleRefusals` | src/modules/imports/imports.service.ts:1067-1089 | an article row is refused as a repeat if and only if an earlier row has the same slug, and for its author if and only if it is no repeat and names one who is not stored |
| `BatchResults.UserErrors` | src/modules/imports/imports.service.ts:951-962 | every repeat error of a user batch is field email, with the row's email and the line of the first row under it |
| `BatchResults.ArticleErrors` | src/modules/imports/imports.service.ts:1067-1077 | the same for articles, field slug |
| `BatchResults.UserRowError` | src/modules/imports/imports.service.ts:998-1021 | which messages out of the savepoint block become a duplicate email, an invalid role or a plain database error |
| `BatchResults.ArticleRowError` | src/modules/imports/imports.service.ts:1133-1157 | the same for articles |
| `BatchResults.StepOutcome` | src/modules/imports/imports.service.ts:964-1022 | a row changes the table exactly when its save and its RELEASE go through, succeeds exactly when it is saved, and otherwise has one error, whose message is that of the first call to throw; a throwing rollback ends the loop |
| `BatchResults.CommentOutcome` | src/modules/imports/imports.service.ts:1195-1271 | the same for a comment, stored under its id without a prefix cm_; a missing article is told before a missing user |
| `BatchResults.TransactionOutcome` | src/modules/imports/imports.service.ts:862-923 | under any faults: when upsertRecords throws, which tables it leaves, and its successes, failures and errors, with one failure mark for each record after a throw |
| `QuietImports.QuietUsers` | src/modules/imports/imports.service.ts:928-1029 | without faults, users whose emails differ in more than case all succeed without an error, and if new ids do not clash each is stored under its email with its columns and nothing else changes |
| `QuietImports.QuietArticles` | src/modules/imports/imports.service.ts:1034-1163 | the same for articles with different slugs by stored authors |
| `QuietImports.QuietComments` | src/modules/imports/imports.service.ts:1168-1277 | comments on stored articles by stored users all succeed, each stored with its columns under its id unless a later one has the same, and no other id changes |
| `Imports.UpsertRecordsCounts` | src/modules/imports/imports.service.ts:862-923 | successful + failed + skipped is exactly n, plus the rows whose RELEASE throws after their save, plus n again when the COMMIT is reached and throws; it is n if and only if the COMMIT is not reached, or no row is counted twice and it does not throw (or n = 0); errors are as many as failures |
| `Imports.ReleaseThrowCountsTwice` | src/modules/imports/imports.service.ts:976-995 | a new user whose RELEASE throws ends as one success, one failure and one error, in unchanged tables |
| `Imports.CommitThrowCountsAgain` | src/modules/imports/imports.service.ts:905-920 | n comments whose COMMIT throws end as 2n outcomes plus one for each throwing RELEASE, 3n when all throw, in unchanged tables |
| `Imports.ProcessBatchCounts` | src/modules/imports/imports.service.ts:726-771 | a batch counts each record once and, exactly, what its transaction counts again: nothing without such throws, at most twice each |
| `BatchResults.BatchOutcome` | src/modules/imports/imports.service.ts:726-771 | a batch returns as many successes as rows saved, as many failures as invalid records and failures of its transaction, and all errors of both in that order |
| `BatchResults.ValidRecordsAre` | src/modules/imports/imports.service.ts:738-752 | the records upserted are the ones validation accepts, all of them, in order and with their lines |
| `BatchResults.ValidationErrorsAre` | src/modules/imports/imports.service.ts:745-757 | the validation errors are exactly the field errors of the refused records |
| `Imports.FileCounts` | src/modules/imports/imports.service.ts:480-706 | over any batches, processed, broken and ignored entries make up the total, and the outcomes are the processed and broken ones plus exactly what throwing RELEASEs and COMMITs made count again |
| `BatchResults.RunOutcome` | src/modules/imports/imports.service.ts:480-706 | successes, failures and errors of any run under any faults, exactly |
| `QuietImports.CleanFile` | src/modules/imports/imports.service.ts:480-706 | a fault-free file of valid records, clean batch by batch, ends with as many successes as records, no failure, nothing skipped and no error |
| `QuietImports.FileOutcome` | src/modules/imports/imports.service.ts:480-706 | the counters of any file loop under any faults, exactly, and its errors as the first 100 of all |
| `QuietImports.PaceIs` | src/modules/imports/imports.service.ts:535-545 | progress is reported after every tenth batch of a CSV or NDJSON file |
| `ImportsService.ImportsService.UpsertUsers` | src/modules/imports/imports.service.ts:928-1029 | the loop with its two maps and four mutable results computes the fast form, savepoint by savepoint |
| `ImportsService.ImportsService.UpsertArticles` | src/modules/imports/imports.service.ts:1034-1163 | the same with authors looked up once |
| `ImportsService.ImportsService.UpsertComments` | src/modules/imports/imports.service.ts:1168-1277 | the loop computes the per-row comment upsert with its own lookups |
| `ImportsService.ImportsService.UpsertAll` | src/modules/imports/imports.service.ts:862-923 | transaction, catch block and connection release against the transaction's meaning, faults included |
| `ImportsService.ImportsService.ProcessBatchWithLineNumbers` | src/modules/imports/imports.service.ts:726-771 | capping validation errors record by record loses nothing below the cap of 100 |
| `ImportsService.ImportsService.ProcessCsvStream` | src/modules/imports/imports.service.ts:480-548 | totals of the uncapped run over the numbered records, errors the first 100 of its full list |
| `ImportsService.ImportsService.ProcessNdjsonStream` | src/modules/imports/imports.service.ts:553-633 | the same over the items of the text, however it was cut into chunks; broken lines fail, falsy values only count |
| `ImportsService.ImportsService.ProcessJsonStream` | src/modules/imports/imports.service.ts:638-706 | the same for a parsed array; a parse error touches nothing |
| `ImportsService.ClassifiedIs` | src/modules/imports/imports.service.ts:581-603 | what each NDJSON item is to the import: an error with its line and reason, a record, or a falsy value that is only counted |
| `ImportsService.CapSlice` | src/modules/imports/imports.service.ts:530-532 | pushing only what fits keeps the list the first 100 of the full one |
| `ImportsService.ItemChunk` | src/modules/imports/imports.service.ts:514-526 | batch n of the CSV loop reports its records on lines n * batchSize + 1 onwards, their global positions |
| `ImportsService.SliceIsChunk` | src/modules/imports/imports.service.ts:675-677 | each slice of the JSON loop is the batch of the same number, on lines i + 1 onwards |
| `ImportFiles.CsvAndJsonAgree` | src/modules/imports/imports.service.ts:480-706 | the same records from CSV and from JSON: both runs are runs of the same batches, each up to the first of its own progress updates that throws, the CSV run no shorter; where none throws, counts, errors and tables are equal |
| `ImportFiles.RunIsPlain` | src/modules/imports/imports.service.ts:480-706 | any run is the report-free run of its batches up to the first progress update that throws, and ends with that throw |
| `ImportFiles.RecordFileCounts` | src/modules/imports/imports.service.ts:480-706 | CSV and JSON: successful + failed + skipped = processed = total = number of records without throwing RELEASE or COMMIT |
| `ImportFiles.NdjsonFileCounts` | src/modules/imports/imports.service.ts:553-633 | NDJSON: the outcomes add up to the total less the lines with falsy values |
| `ImportFiles.EntryFileCounts` | src/modules/imports/imports.service.ts:480-706 | the outcomes of any file under any faults, exactly; a processed entry counts at most three times, and at most 100 errors are kept |
| `ImportProcessor.ProcessImport` | src/modules/imports/imports.service.ts:231-269 | without the lock or with a job not pending, jobs and tables stay as they are; else, column by column, the job ends COMPLETED with the run's counters and first 100 errors, or FAILED with its own, or as started when neither could be recorded or the start's connection could not be given back; the lock is released |
| `ImportProcessor.ExecuteImportProcessing` | src/modules/imports/imports.service.ts:330-429 | column by column, the row after a run of any file and any faults of the two final transactions; the tables; whether the call throws |
| `Reimport.ReimportIsIdempotent` | src/modules/imports/imports.service.ts:862-1163 | a second fault-free run over any users or articles file leaves the whole database as the first left it if every key the file decides is stored after the first; where the second draws new ids and rows for missing keys supply no stored id, if and only if; and always if no ids clashed in the first run |
| `Reimport.RenameBreaksReimport` | src/modules/imports/imports.service.ts:965-990 | in any table, a two-row file (an update of a key, then a rename of its row by id) whose second import stores the key once more |
| `Reimport.RenamedBackIsIdempotent` | src/modules/imports/imports.service.ts:965-990 | a file outside the exact form's hypothesis: a decided key is left unstored, and yet a second import changes nothing |
| `Reimport.ImportTwiceIffStored` | src/modules/imports/imports.service.ts:928-1163 | the exact form for one table and any batches |
| `Reimport.KeyEndsWithLastFirstOccurrence` | src/modules/imports/imports.service.ts:928-1163 | a key still stored at the end has the columns of its first valid occurrence in the last batch that has one, whatever ids clash; without clashes it is stored |
| `Reimport.UndecidedKeyUnchanged` | src/modules/imports/imports.service.ts:1074-1084 | a key whose occurrences are all repeats or name missing authors keeps its row and id, or loses the row to one that supplies its id; without clashes it keeps it |
| `Reimport.FileLookup` | src/modules/imports/imports.service.ts:928-1163 | the id of a stored row survives every import of its key |
| `Reimport.AnyFileLookup` | src/modules/imports/imports.service.ts:928-1163 | after any fault-free file a key is gone, or as before if no batch decides it, or has the columns of the last batch's winner; no id vanishes |
| `Reimport.CommentReimportIdempotentIffIdentified` | src/modules/imports/imports.service.ts:1218-1258 | for comments a second run changes nothing if and only if every comment added carries its own id |
| `StreamUtils.BatchTransform.Flush` | src/common/utils/stream.utils.ts:6-32 | after the flush the stream has emitted exactly the batches of what it received, for any batch size |
| `StreamUtils.ChunksFaithful` | src/common/utils/stream.utils.ts:6-32 | batches concatenate to the input, all but the last are full, none is empty |
| `StreamUtils.ChunksUnique` | src/common/utils/stream.utils.ts:6-32 | those properties have one solution |
| `StreamUtils.ChunkAt` | src/common/utils/stream.utils.ts:6-32 | batch b is the stretch of the input from position b * size on |
| `StreamUtils.NdjsonParseTransform.Transform` | src/common/utils/stream.utils.ts:63-89 | buffer, line number and items after a chunk depend only on the text received so far |
| `StreamUtils.NdjsonParseTransform.Flush` | src/common/utils/stream.utils.ts:91-106 | all items of the whole text have been pushed |
| `StreamUtils.ParseNdjson` | src/common/utils/stream.utils.ts:55-107 | every cutting of a text into chunks gives the items of the one-shot split |
| `StreamUtils.ItemIsNonBlankLine` | src/common/utils/stream.utils.ts:71-86 | each item is a non-blank line with its true number, numbers increasing: its parsed value, or the reason and the trimmed line |
| `StreamUtils.NonBlankLineHasItem` | src/common/utils/stream.utils.ts:71-86 | each non-blank line has its item |
| `StreamUtils.NdjsonTextLines` | src/common/utils/stream.utils.ts:37-107 | the text written for values is read as those values on consecutive lines |
| `StreamUtils.NdjsonRoundTrip` | src/common/utils/stream.utils.ts:37-107 | stringified, cut anywhere and parsed, values come back in order on lines 1..n without error items |
| `StreamUtils.ReadLines` | src/common/utils/stream.utils.ts:356-384 | the line reader gives the untrimmed lines of the text for every cutting |
| `StreamUtils.LinesReadBack` | src/common/utils/stream.utils.ts:356-384 | lines written with newlines are read back, empty ones included |
| `TextLines.SplitResume` | src/common/utils/stream.utils.ts:63-69 | splitting can be resumed from the last open piece |
| `TextLines.SplitJoin` | src/common/utils/stream.utils.ts:63-69 | a text has one cutting at its separators |
| `TextLines.TrimMeans` | src/common/utils/stream.utils.ts:71-75 | trim takes white space off both ends and nothing else; a line is blank exactly when it is all white space |
| `RateLimit.Throttle` | src/common/utils/stream.utils.ts:182-211 | when the k-th item leaves after a span of ms since the start, k * 1000 <= rateLimit * (span + early * (1 + span / 1000)) across window resets, `early` bounding how much a sleep may fall short by the rounded clock; k * 1000 <= rateLimit * span for an exact one |
| `RateLimit.RateLimitTransform.Transform` | src/common/utils/stream.utils.ts:192-210 | one item keeps the bound of its window and of all windows before, less what rounding may lose in each |
| `JobProtocol.StartsBounded` | src/modules/imports/imports.service.ts:231-325 | in every run a job enters PROCESSING at most once more than cleanup reset it, at most once when cleanup never restarts |
| `JobProtocol.LaterDeliveryIsInert` | src/modules/imports/imports.service.ts:231-325 | without restarts, after a job's start no step of another delivery changes a job row or the tables |
| `JobProtocol.AllLaterWritesAreTheFirsts` | src/modules/imports/imports.service.ts:231-325 | over any continuation of a run, every batch added for a started job is the starting delivery's |
| `JobProtocol.OneWriterPerJob` | src/modules/imports/imports.service.ts:231-325 | without restarts all batches written for a job come from one delivery |
| `JobProtocol.LockedExactlyWhileProcessing` | src/modules/imports/imports.service.ts:275-475 | lockedBy and lockedAt are set exactly while a job is PROCESSING, lockedAt no later than startedAt |
| `JobProtocol.OnlyLateCleanupMovesTerminal` | src/common/services/stale-job-cleanup.service.ts:113-226 | a step changes a terminal status if and only if it is a cleanup write, scanned while the job was processing, with another target |
| `JobProtocol.TerminalIsAbsorbing` | src/common/services/stale-job-cleanup.service.ts:113-226 | with scan and write in one step terminal states are absorbing over every run |
| `JobProtocol.SplitCleanupOverwritesCompleted` | src/common/services/stale-job-cleanup.service.ts:197-226 | a reachable state in which a late cleanup write turns COMPLETED into FAILED, or PENDING with restarts |
| `JobProtocol.StepKeepsInvariant` | src/modules/imports/imports.service.ts:231-475 | every step of every node keeps the protocol's invariant |
| `JobLocks.OverlapNeedsExpiry` | src/modules/imports/imports.service.ts:229-269 | in every run, restarts or not: when two deliveries of one job are between winning and releasing its lock together, the lock of the one that won first ran out, or a shutdown's del hit the job's key, after its win and before the other's |
| `JobLocks.OneInsideAtATime` | src/modules/imports/imports.service.ts:229-269 | at every point of every run in which a job's renewals come in time and no shutdown deletes its key, at most one delivery of the job is inside its lock, so at most one executes, whatever crashes, is redelivered or reset |
| `JobLocks.RenewedLockIsHeld` | src/common/services/distributed-lock.service.ts:257-280 | with renewals in time Redis holds a delivery's token with exactly the expiry its last applied command asked for, among all other deliveries' commands |
| `JobLocks.ExpiredLockLetsTwoExecute` | src/modules/imports/imports.service.ts:229-269 | a reachable state, with restarts, in which two deliveries of one job execute after a lock ran out |
| `JobLocks.ShutdownLetsTwoExecute` | src/common/services/distributed-lock.service.ts:176-182 | a reachable state, no time having passed, in which two deliveries execute after a shutdown's del |
| `JobCleanup.CleanupLooksAtTheStartOnly` | src/common/services/stale-job-cleanup.service.ts:113-150 | in every run, a pass picks a processing job if and only if the start or lock stamp of its last start is older than its threshold, whatever Redis holds |
| `JobCleanup.HealthyJobTurnsStale` | src/common/services/stale-job-cleanup.service.ts:113-150 | for all thresholds, a run with renewals in time in which a delivery executes under a lock Redis holds for it, and its job is stale |
| `JobCleanup.CleanedRunIsLost` | src/modules/imports/imports.service.ts:434-475 | with renewals in time, restarts or not: once a run's job is no longer processing it does not become so while its delivery executes, and what that delivery finalizes changes no row |
| `JobCleanup.CleanedWhileExecuting` | src/common/services/stale-job-cleanup.service.ts:197-226 | without restarts: a job cleaned while its delivery executes is FAILED in every continuation, with the errors it had, and every batch written stays |
| `JobCleanup.FinalizesItsOwnRun` | src/modules/imports/imports.service.ts:434-475 | with renewals in time a finalization that changes a row ends the run its own delivery started |
| `JobCleanup.CompletesAnothersRun` | src/modules/imports/imports.service.ts:434-475 | a reachable state, with restarts and an expired lock, in which a delivery completes the run another started, with any counters and errors it has |
| `JobCleanup.StampsAreTheLastStarts` | src/modules/imports/imports.service.ts:241-256 | lockedBy, lockedAt and startedAt of a processing job are those of its last start, never renewed |
| `ImportJobs.JobTable.AtomicStatusTransition` | src/modules/imports/imports.service.ts:275-325 | only a pending row moves, exactly when the commit goes through; which calls make it throw, also after the move |
| `ImportJobs.JobTable.FinalizeJob` | src/modules/imports/imports.service.ts:434-475 | a job no longer processing is left alone without an error; which calls make it throw, also after the change |
| `ImportJobs.JobTable.UpdateJobProgress` | src/modules/imports/imports.service.ts:1282-1299 | an update by id of the counters alone, whatever the status: the write the protocol's progress step makes |
| `ImportJobs.JobTable.HandleStaleImportJob` | src/common/services/stale-job-cleanup.service.ts:197-226 | the unconditional update by id, decided by the row scanned |
| `ImportJobs.JobTable.CleanupStaleImportJobs` | src/common/services/stale-job-cleanup.service.ts:113-150 | every stale row is cleaned once from its own state, no other row changes, the count is exact under faults |
| `ImportJobs.JobTable.CleanupLeavesNoStaleLock` | src/common/services/stale-job-cleanup.service.ts:113-150 | after a pass without errors no job is processing under a lock older than the threshold |
| `ImportJobs.JobTable.ForceCleanupImportJob` | src/common/services/stale-job-cleanup.service.ts:292-304 | cleans at once, from its own state, exactly a row that a scan of the protocol may pick |
| `ImportJobs.StartedQueryIsRedundant` | src/common/services/stale-job-cleanup.service.ts:117-134 | the started-too-long query adds nothing if and only if the lock threshold is at most the stale threshold |
| `ImportJobs.StaleMayBeCleaned` | src/common/services/stale-job-cleanup.service.ts:117-134 | rows of the scheduled queries are rows the protocol's scan may pick, among consistent rows the processing ones |
| `ImportJobs.DedupExact` | src/common/services/stale-job-cleanup.service.ts:278-287 | deduplication keeps one job per id, loses and invents none |
| `ImportJobs.CleanedColumns` | src/common/services/stale-job-cleanup.service.ts:202-222 | which columns a cleanup sets and which it leaves, for a reset and for a failure |
| `DistributedLock.AcquiresAreSeparated` | src/common/services/distributed-lock.service.ts:89-170 | between two successful acquires of a key the first holder released it or its lock ran out |
| `DistributedLock.HeldUntilReleasedOrExpired` | src/common/services/distributed-lock.service.ts:89-170 | until then the token stays and every other acquire fails |
| `DistributedLock.SupersededTokenIsInert` | src/common/services/distributed-lock.service.ts:142-211 | a token that lost the key never regains it, and its releases and renewals change nothing |
| `DistributedLock.AcquiredLockStaysHeld` | src/common/services/distributed-lock.service.ts:257-280 | with renewals less than ttl - ttl / 2 after they are due, the first due ttl / 2 after the acquire, the key never expires, whatever others do |
| `DistributedLock.LateRenewalLosesLock` | src/common/services/distributed-lock.service.ts:257-280 | one millisecond more and the key is gone |
| `DistributedLock.RenewedOnTime` | src/common/services/distributed-lock.service.ts:257-280 | a lock renewed every ttl / 2 milliseconds is held for any number of rounds, with a whole time to live after each |
| `DistributedLock.RoundsAreARun` | src/common/services/distributed-lock.service.ts:99-130 | what the server has seen before a round of the retry loop: every command answered or applied and what came during each sleep |
| `DistributedLock.DistributedLockService.AcquireLock` | src/common/services/distributed-lock.service.ts:89-136 | the retry loop wins at the first answered round that finds the key free, or not at all |
| `DistributedLock.DistributedLockService.ReleaseLock` | src/common/services/distributed-lock.service.ts:142-170 | the timer is stopped, the key deleted only under its own token |
| `DistributedLock.DistributedLockService.RenewalTick` | src/common/services/distributed-lock.service.ts:257-280 | a renewal extends under its own token, a failed one ends the renewing |
| `CsvExport.TransformToCsv` | src/modules/exports/exports.service.ts:735-796 | a reader whose records end at LF gets back the header and every cell string; one whose records end at LF or CRLF does so if and only if no row ends in an unquoted cell ending in a carriage return; no records, no text |
| `CsvExport.ReadCsvText` | src/modules/exports/exports.service.ts:772-788 | what both readers make of every table of non-empty rows: the table, and the table less carriage returns that end an unquoted last cell, with the exact condition for equality |
| `CsvExport.ReadCell` | src/modules/exports/exports.service.ts:772-779 | an escaped cell reads back as itself, commas, quotes and newlines included |
| `CsvExport.CsvTextInjective` | src/modules/exports/exports.service.ts:772-788 | two tables with the same text are equal |
| `RecordExport.StreamRecords` | src/modules/exports/exports.service.ts:425-457 | the offset loop ends and writes every matching row once, in order, for every batch size, each with exactly its requested columns, or all of them, and their values |
| `RecordExport.CountThenStream` | src/modules/exports/exports.service.ts:425-635 | the count made first equals the number of records written |
| `RecordExport.BuildQuery` | src/modules/exports/exports.service.ts:484-592 | the conditions of a query accept exactly the rows the filters describe |
| `RecordExport.MatchesMeans` | src/modules/exports/exports.service.ts:474-592 | filter by filter, what a matching row satisfies |
| `RecordExport.MatchingExact` | src/modules/exports/exports.service.ts:425-592 | each matching row of the table is selected as often as it occurs, no other |
| `RecordExport.ExportCsv` | src/modules/exports/exports.service.ts:425-796 | a whole CSV export of a resource's table reads back as the column names and, written out, the columns of every matching row, at LF always, at LF or CRLF under the exact condition |
| `RecordExport.ExportNdjson` | src/modules/exports/exports.service.ts:396-457 | an NDJSON export is parsed back to the record of every matching row, in order, one to a line, with exactly the requested columns |
| `RecordExport.UserCells` | src/modules/exports/exports.service.ts:648-662 | column by column, the cells of an exported user |
| `RecordExport.ArticleCells` | src/modules/exports/exports.service.ts:664-678 | column by column, the cells of an exported article |
| `RecordExport.CommentCells` | src/modules/exports/exports.service.ts:679-687 | column by column, the cells of an exported comment |
| `RecordExport.FormattedHasHeaders` | src/modules/exports/exports.service.ts:640-765 | the formatter and the header row name the same columns |
| `RecordExport.FormatRecord` | src/modules/exports/exports.service.ts:640-700 | a record holds exactly the resource's columns when none is requested and the requested ones among them otherwise, each with its formatted value |
| `Slugs.KebabCaseIsSlug` | src/common/utils/validation.utils.ts:121-129 | the normaliser returns the empty string or a valid slug |
| `Slugs.KebabCaseKeepsSlugs` | src/common/utils/validation.utils.ts:121-129 | a valid slug is left unchanged |
| `Slugs.KebabCaseIdempotent` | src/common/utils/validation.utils.ts:121-129 | normalising twice is normalising once |
| `Slugs.KebabCaseJoinsWords` | src/common/utils/validation.utils.ts:121-129 | words with any gaps of white space and underscores become those words with single hyphens between |
| `Slugs.ValidSlugShape` | src/common/utils/validation.utils.ts:88-91 | the slug pattern accepts exactly the strings of lower alphanumerics and single inner hyphens |

## Left out

- NestJS wiring, controllers, DTO decorators, guards, filters, logging, health checks: plumbing.
- S3 storage, presigned URLs, remote fetch, BullMQ internals: redelivery is "processImport may be called again".
- csv-parse, class-validator, class-transformer: abstract functions; a parser error in the middle of a stream is not modelled.
- Timestamps of users, articles and comments, and writes of other transactions during an upsert.
- The `value` copies and wording in error messages: errors carry their row, field and reason.
- Ids are compared as strings, while the columns are of type `uuid`: an upper-case id passes validation and names the same stored row as its lower-case form.
- Reference ids that `isValidUUID` rejects, which would change what the lookup queries return.
- The in-memory entities of the lookup map: the batch never looks at one a second time.
- A commit whose reply is lost although it took effect: in the import engine a throwing commit means not committed; in `JobProtocol` both outcomes are steps.
- What progress updates write during a call of the import engine: only that they may throw; in `JobProtocol` they are steps.
- The columns `errorMessage` and `metrics` of a job, and its version column.
- Export jobs as a protocol: a whole-entity save outside the guard (`src/modules/exports/exports.service.ts:252`) puts their status outside the guarded changes.
- In `DistributedLock`'s own runs: release by key on shutdown (a step of `JobProtocol`), and re-acquiring a key after losing it, as renewal timers are stored per key.
- The `createdAfter` filter, which names one parameter and binds another (`src/modules/exports/exports.service.ts:569-573`), ties in the sort by creation time, and exports while the table changes.
- User-chosen CSV header names, which are written unescaped, and telling null from the empty string after an export.
- `wrapAsJsonArray`, byte and row metrics, `countWords`, `normalizeTags`, `flattenValidationErrors`: easy beside the rest.
- Chunks that cut a UTF-8 character: chunks are character sequences.
- Clocks that are set back: the rate limiter's and Redis's clocks only go on.
- Reimport.ReimportIsIdempotent: says nothing of timestamps, which a second import may renew.
