/** One undisturbed call of `processImport`: lock, guarded start, execution, finalization, release.
    Runs in which other nodes act in between are the subject of `JobProtocol`. */
module ImportProcessor {
  import opened Wrappers
  import opened StreamUtils
  import opened Upserts
  import opened Imports
  import opened ImportsService
  import J = ImportJobs
  import L = DistributedLock

  /** The file of a job, by format, as far as the loops see it; `Unreadable` when it cannot be opened. */
  datatype Source<!D> =
    | Csv(rows: seq<D>)
    | Ndjson(parse: string -> Parsed<D>, truthy: D -> bool, chunks: seq<string>)
    | Json(parsed: Result<seq<D>>)
    | Unreadable(message: string)

  /** The file cannot be opened, or is no JSON. */
  predicate NotRead<D>(source: Source<D>) {
    source.Unreadable? || (source.Json? && source.parsed.Thrown?)
  }

  /** What importing a source comes to, without capping. */
  function FullRun<D>(imp: Importer<D>, source: Source<D>, db: Database, size: nat, env: Env): (r: End<Totals>)
    requires UniqueKeys(db.users) && UniqueKeys(db.articles) && size >= 1
  {
    match source
    case Csv(rows) => RunBatches(imp, EveryTenth, db, NOTHING, Chunks(Items(rows, 1), size), 1, env)
    case Ndjson(parse, truthy, chunks) =>
      var entries := Classified(truthy, NdjsonItems(parse, Flatten(chunks)));
      RunBatches(imp, EveryTenth, db, NOTHING, Chunks(entries, size), 1, env)
    case Json(parsed) =>
      if parsed.Thrown? then End(db, Thrown(parsed.message))
      else RunBatches(imp, EveryBatch, db, NOTHING, Chunks(Items(parsed.value, 1), size), 1, env)
    case Unreadable(message) => End(db, Thrown(message))
  }

  function Final(t: Totals): (p: J.Progress) {
    J.Progress(t.total, t.processed, t.tally.successful, t.tally.failed, 0)
  }

  method RunSource<D>(service: ImportsService, imp: Importer<D>, source: Source<D>, env: Env)
    returns (r: Result<Counts>)
    requires service.Valid()
    modifies service`db
    ensures service.Valid()
    ensures var end := FullRun(imp, source, old(service.db), service.batchSize, env);
      service.db == end.db && Capped(r, end.outcome)
  {
    match source
    case Csv(rows) => r := service.ProcessCsvStream(imp, rows, env);
    case Ndjson(parse, truthy, chunks) => r := service.ProcessNdjsonStream(imp, parse, truthy, chunks, env);
    case Json(parsed) => r := service.ProcessJsonStream(imp, parsed, env);
    case Unreadable(message) => r := Thrown(message);
  }

  function Completion(t: Totals): (report: J.Report) {
    J.Report(Final(t), Take(t.tally.errors, MAX_ERRORS))
  }

  /** The row a started job ends as: completed with the run's totals and its first errors, or failed,
      or still processing when even recording the failure failed. */
  function EndRow(row: J.JobRow, outcome: Result<Totals>, at: int, onComplete: J.TransactionEnv,
                  onFail: J.TransactionEnv): (r: J.JobRow)
  {
    if outcome.Returned? && onComplete.Commits() then J.Finalized(row, J.Completed, at, Some(Completion(outcome.value)))
    else if onFail.Commits() then J.Finalized(row, J.Failed, at, None)
    else row
  }

  /** All calls up to a transaction's commit went through. */
  predicate WentThrough(env: J.TransactionEnv) {
    env.begin.None? && env.query.None? && env.save.None?
  }

  /** How a started job ends, column by column: completed with the counters and the first 100 errors of
      the run, or failed with the counters and errors it had, or as it was. */
  predicate EndsAs(before: J.JobRow, after: J.JobRow, outcome: Result<Totals>, at: int, onComplete: J.TransactionEnv,
                   onFail: J.TransactionEnv)
  {
    if outcome.Returned? && WentThrough(onComplete) then
      && after.status == J.Completed && after.lockedBy == None && after.lockedAt == None
      && after.startedAt == before.startedAt && after.completedAt == Some(at)
      && after.progress.total == outcome.value.total && after.progress.processed == outcome.value.processed
      && after.progress.successful == outcome.value.tally.successful
      && after.progress.failed == outcome.value.tally.failed && after.progress.skipped == 0
      && after.errors == (var all := outcome.value.tally.errors; if |all| <= 100 then all else all[..100])
    else if WentThrough(onFail) then
      && after.status == J.Failed && after.lockedBy == None && after.lockedAt == None
      && after.startedAt == before.startedAt && after.completedAt == Some(at)
      && after.progress == before.progress && after.errors == before.errors
    else after == before
  }

  /** `executeImportProcessing`: a throw while importing or while recording completion marks the job
      as failed, unless its completion was recorded before the throw, and goes on up. */
  method ExecuteImportProcessing<D>(service: ImportsService, jobs: J.JobTable, imp: Importer<D>, source: Source<D>,
                                    env: Env, id: J.JobId, at: int, onComplete: J.TransactionEnv,
                                    onFail: J.TransactionEnv)
    returns (r: Result<()>)
    requires service.Valid() && id in jobs.jobs && jobs.jobs[id].status == J.Processing
    modifies service`db, jobs
    ensures service.Valid()
    ensures var end := FullRun(imp, source, old(service.db), service.batchSize, env);
      && service.db == end.db
      && jobs.jobs == old(jobs.jobs)[id := EndRow(old(jobs.jobs)[id], end.outcome, at, onComplete, onFail)]
      && EndsAs(old(jobs.jobs)[id], jobs.jobs[id], end.outcome, at, onComplete, onFail)
      && (r.Returned? <==> end.outcome.Returned? && WentThrough(onComplete) && onComplete.release.None?)
    ensures NotRead(source) ==>
      && service.db == old(service.db) && r.Thrown?
      && jobs.jobs[id].status == if WentThrough(onFail) then J.Failed else J.Processing
  {
    var result := RunSource(service, imp, source, env);
    var thrown: string;
    if result.Returned? {
      var c := result.value;
      var progress := J.Progress(c.total, c.processed, c.successful, c.failed, c.skipped);
      var report := J.Report(progress, Take(c.errors, MAX_ERRORS));
      var done := jobs.FinalizeJob(id, J.Completed, at, Some(report), onComplete);
      if done.Returned? {
        return done;
      }
      thrown := done.message;
    } else {
      thrown := result.message;
    }
    var _ :- jobs.FinalizeJob(id, J.Failed, at, None, onFail);
    return Thrown(thrown);
  }

  /** What the surroundings do during one delivery. */
  datatype Delivery = Delivery(node: string, token: string, plan: seq<L.Attempt>, lockedAt: int, startedAt: int,
                               start: J.TransactionEnv, at: int, onComplete: J.TransactionEnv,
                               onFail: J.TransactionEnv, release: L.Reply)

  /** `processImport`: without the lock or with a job not pending, neither the jobs nor the tables
      change; otherwise the job is started, run and ended, or left processing when the start's
      connection could not be given back. Either way the lock, once taken, is released under its own
      token. */
  method ProcessImport<D>(service: ImportsService, jobs: J.JobTable, locks: L.DistributedLockService,
                          imp: Importer<D>, source: Source<D>, env: Env, id: J.JobId, d: Delivery)
    returns (r: Result<()>)
    requires service.Valid() && |d.plan| == 1
    modifies service`db, jobs, locks, locks.redis
    ensures service.Valid()
    ensures var key := J.LockKey(id);
      var won := L.Wins(old(locks.redis.server), L.Acquire(key, d.token, 300000), d.plan, 0);
      var moved := won && WentThrough(d.start) && id in old(jobs.jobs) && old(jobs.jobs)[id].status == J.Pending;
      var begun := moved && d.start.release.None?;
      && (!moved ==> jobs.jobs == old(jobs.jobs))
      && (!won ==> r.Returned?)
      && (moved ==>
            var started := J.Started(old(jobs.jobs)[id], d.node, d.lockedAt, d.startedAt);
            jobs.jobs == old(jobs.jobs)[id :=
              if begun
              then EndRow(started, FullRun(imp, source, old(service.db), service.batchSize, env).outcome, d.at,
                          d.onComplete, d.onFail)
              else started])
      && (moved && !begun ==>
            var row := jobs.jobs[id];
            && row.status == J.Processing && row.lockedBy == Some(d.node) && row.lockedAt == Some(d.lockedAt)
            && row.startedAt == Some(d.startedAt) && row.completedAt == old(jobs.jobs)[id].completedAt
            && row.progress == old(jobs.jobs)[id].progress && row.errors == old(jobs.jobs)[id].errors)
      && (begun ==>
            var before := old(jobs.jobs)[id].(status := J.Processing, lockedBy := Some(d.node),
                                              lockedAt := Some(d.lockedAt), startedAt := Some(d.startedAt));
            EndsAs(before, jobs.jobs[id],
                   FullRun(imp, source, old(service.db), service.batchSize, env).outcome, d.at, d.onComplete,
                   d.onFail))
      && (if begun then
            var end := FullRun(imp, source, old(service.db), service.batchSize, env);
            && service.db == end.db
            && (r.Returned? <==> end.outcome.Returned? && WentThrough(d.onComplete) && d.onComplete.release.None?)
          else service.db == old(service.db) && (moved ==> r.Thrown?))
      && (won && d.release.Answered? ==> L.Holder(locks.redis.server, key) == None && key !in locks.activeLocks)
  {
    var key := J.LockKey(id);
    var lock := locks.AcquireLock(key, d.token, 300000, d.plan);
    if lock.None? {
      return Returned(());
    }
    r := Returned(());
    var transition := jobs.AtomicStatusTransition(id, d.node, d.lockedAt, d.startedAt, d.start);
    if transition.Thrown? {
      r := Thrown(transition.message);
    } else if transition.value {
      r := ExecuteImportProcessing(service, jobs, imp, source, env, id, d.at, d.onComplete, d.onFail);
    }
    var _ := locks.ReleaseLock(lock.value, d.release);
  }
}
