/** The import job row, the guarded status changes of `imports.service.ts`, and the stale-job
    cleanup of `stale-job-cleanup.service.ts`. */
module ImportJobs {
  import opened Wrappers
  import U = Upserts

  type JobId = string

  datatype Status = Pending | Processing | Completed | Failed | Cancelled

  datatype Progress = Progress(total: nat, processed: nat, successful: nat, failed: nat, skipped: nat)

  /** The columns the protocol reads or writes. */
  datatype JobRow = JobRow(status: Status, lockedBy: Option<string>, lockedAt: Option<int>, startedAt: Option<int>,
                           completedAt: Option<int>, progress: Progress, errors: seq<U.JobError>)

  type Jobs = map<JobId, JobRow>

  /** A row as a request creates it. */
  const NEW_JOB := JobRow(Pending, None, None, None, None, Progress(0, 0, 0, 0, 0), [])

  /** What a completed run records: its counters and the errors it kept. */
  datatype Report = Report(progress: Progress, errors: seq<U.JobError>)

  predicate Terminal(row: JobRow) {
    row.status == Completed || row.status == Failed
  }

  /** Lock columns are set exactly while processing, and the lock is stamped before the start. */
  predicate Consistent(row: JobRow) {
    && (row.lockedBy.Some? <==> row.status == Processing)
    && (row.lockedAt.Some? <==> row.status == Processing)
    && (row.status == Processing ==> row.startedAt.Some? && row.lockedAt.value <= row.startedAt.value)
  }

  /** The Redis key of a job's lock. */
  function LockKey(id: JobId): (key: string) {
    "lock:import-job:" + id
  }

  /** The row `processImport` leaves when it takes a job. */
  function Started(row: JobRow, node: string, lockedAt: int, startedAt: int): (r: JobRow) {
    row.(status := Processing, lockedBy := Some(node), lockedAt := Some(lockedAt), startedAt := Some(startedAt))
  }

  /** The row `finalizeJob` leaves: counters and errors are written on completion, not on failure. */
  function Finalized(row: JobRow, to: Status, at: int, report: Option<Report>): (r: JobRow) {
    var ended := row.(status := to, lockedBy := None, lockedAt := None, completedAt := Some(at));
    if report.Some? then ended.(progress := report.value.progress, errors := report.value.errors) else ended
  }

  /** Where cleanup sends a job it saw in the given state. */
  function CleanupTarget(seen: JobRow, restart: bool): (to: Status) {
    if restart && seen.status == Processing then Pending else Failed
  }

  /** The cleanup's update, decided by the row it saw, applied to whatever row is there now. */
  function CleanedUp(row: JobRow, seen: JobRow, restart: bool, at: int): (r: JobRow) {
    if CleanupTarget(seen, restart) == Pending
    then row.(status := Pending, lockedBy := None, lockedAt := None, startedAt := None)
    else row.(status := Failed, lockedBy := None, lockedAt := None, completedAt := Some(at))
  }

  /** The columns each of these writes sets, and those it leaves alone. */
  lemma StartedColumns(row: JobRow, node: string, lockedAt: int, startedAt: int)
    ensures var r := Started(row, node, lockedAt, startedAt);
      && r.status == Processing && r.lockedBy == Some(node) && r.lockedAt == Some(lockedAt)
      && r.startedAt == Some(startedAt)
      && r.completedAt == row.completedAt && r.progress == row.progress && r.errors == row.errors
  {
  }

  lemma FinalizedColumns(row: JobRow, to: Status, at: int, report: Option<Report>)
    ensures var r := Finalized(row, to, at, report);
      && r.status == to && r.lockedBy == None && r.lockedAt == None && r.completedAt == Some(at)
      && r.startedAt == row.startedAt
      && (report.Some? ==> r.progress == report.value.progress && r.errors == report.value.errors)
      && (report.None? ==> r.progress == row.progress && r.errors == row.errors)
  {
  }

  /** A reset forgets the start and keeps everything else; any other cleanup ends the job. */
  lemma CleanedColumns(row: JobRow, seen: JobRow, restart: bool, at: int)
    ensures var r := CleanedUp(row, seen, restart, at);
      && r.lockedBy == None && r.lockedAt == None && r.progress == row.progress && r.errors == row.errors
      && (if restart && seen.status == Processing
          then r.status == Pending && r.startedAt == None && r.completedAt == row.completedAt
          else r.status == Failed && r.startedAt == row.startedAt && r.completedAt == Some(at))
  {
  }

  /** A job row together with its id, as a query returns it. */
  datatype Found = Found(id: JobId, row: JobRow)

  /** Rows a cleanup may pick. */
  predicate MayClean(row: JobRow) {
    row.status == Processing || row.lockedBy.Some?
  }

  // ---------------------------------------------------------------------------------------
  // What each write does to the table
  // ---------------------------------------------------------------------------------------

  /** The guarded start: only a pending job moves. */
  function WithStart(jobs: Jobs, id: JobId, node: string, lockedAt: int, startedAt: int): (r: Jobs) {
    if id in jobs && jobs[id].status == Pending then jobs[id := Started(jobs[id], node, lockedAt, startedAt)] else jobs
  }

  /** The guarded end: only a processing job moves. */
  function WithEnd(jobs: Jobs, id: JobId, to: Status, at: int, report: Option<Report>): (r: Jobs) {
    if id in jobs && jobs[id].status == Processing then jobs[id := Finalized(jobs[id], to, at, report)] else jobs
  }

  /** The progress update by id. */
  function WithProgress(jobs: Jobs, id: JobId, progress: Progress): (r: Jobs) {
    if id in jobs then jobs[id := jobs[id].(progress := progress)] else jobs
  }

  /** The cleanup's update by id, from what its scan saw. */
  function WithCleanup(jobs: Jobs, found: Found, restart: bool, at: int): (r: Jobs) {
    if found.id in jobs then jobs[found.id := CleanedUp(jobs[found.id], found.row, restart, at)] else jobs
  }

  /** What may throw in a transaction on one job row. `abandon`: the rollback made when the row is not
      to be changed; `rollback`: the one of the catch block; `save`: the save or the commit, neither
      having taken effect. */
  datatype TransactionEnv = TransactionEnv(begin: Option<string>, query: Option<string>, abandon: Option<string>,
                                           save: Option<string>, rollback: Option<string>, release: Option<string>)
  {
    /** The row's change is committed. */
    predicate Commits() {
      begin.None? && query.None? && save.None?
    }
  }

  // ---------------------------------------------------------------------------------------
  // The two cleanup queries
  // ---------------------------------------------------------------------------------------

  datatype Thresholds = Thresholds(staleMs: int, staleLockMs: int)

  predicate StartedTooLong(row: JobRow, t: Thresholds, now: int) {
    row.status == Processing && row.startedAt.Some? && row.startedAt.value < now - t.staleMs
  }

  predicate LockTooOld(row: JobRow, t: Thresholds, now: int) {
    && row.lockedBy.Some?
    && row.lockedAt.Some? && row.lockedAt.value < now - t.staleLockMs
    && (row.status == Pending || row.status == Processing)
  }

  predicate Stale(row: JobRow, t: Thresholds, now: int) {
    StartedTooLong(row, t, now) || LockTooOld(row, t, now)
  }

  /** The scheduled queries pick only rows the forced cleanup would pick too. */
  lemma StaleMayBeCleaned(row: JobRow, t: Thresholds, now: int)
    ensures Stale(row, t, now) ==> MayClean(row)
    ensures Consistent(row) ==> (MayClean(row) <==> row.status == Processing)
  {
  }

  /** On consistent rows the started-too-long query adds nothing for any clock and any rows exactly
      when the lock threshold is at most the stale threshold. */
  lemma StartedQueryIsRedundant(t: Thresholds)
    ensures (forall row, now :: Consistent(row) && StartedTooLong(row, t, now) ==> LockTooOld(row, t, now))
       <==> t.staleLockMs <= t.staleMs
  {
    if t.staleLockMs > t.staleMs {
      var row := Started(NEW_JOB, "node", 0, 0);
      var now := t.staleMs + 1;
      assert Consistent(row) && StartedTooLong(row, t, now) && !LockTooOld(row, t, now);
    }
  }

  // ---------------------------------------------------------------------------------------
  // The job table
  // ---------------------------------------------------------------------------------------

  /** How handling one stale job goes: the update fails, or the look at its Redis key afterwards. */
  datatype Fault = NoFault | UpdateFails | LookupFails

  /** The jobs of a query result that a set of ids picks, first occurrence of each id. */
  function Dedup(jobs: seq<Found>, seen: set<JobId>): (kept: seq<Found>) {
    if jobs == [] then []
    else if jobs[0].id in seen then Dedup(jobs[1..], seen)
    else [jobs[0]] + Dedup(jobs[1..], seen + {jobs[0].id})
  }

  function Ids(jobs: seq<Found>): (ids: set<JobId>) {
    set i | 0 <= i < |jobs| :: jobs[i].id
  }

  predicate DistinctIds(jobs: seq<Found>) {
    forall i, j :: 0 <= i < j < |jobs| ==> jobs[i].id != jobs[j].id
  }

  /** No id twice, none lost, none new. */
  lemma {:induction false} DedupExact(jobs: seq<Found>, seen: set<JobId>)
    ensures DistinctIds(Dedup(jobs, seen))
    ensures Ids(Dedup(jobs, seen)) == Ids(jobs) - seen
    ensures forall i :: 0 <= i < |Dedup(jobs, seen)| ==> Dedup(jobs, seen)[i] in jobs
  {
    if jobs != [] {
      var first, tail := jobs[0], jobs[1..];
      assert jobs == [first] + tail;
      IdsCons(first, tail);
      if first.id in seen {
        DedupExact(tail, seen);
      } else {
        var rest := Dedup(tail, seen + {first.id});
        DedupExact(tail, seen + {first.id});
        IdsCons(first, rest);
        DistinctCons(first, rest);
      }
    }
  }

  lemma DistinctCons(first: Found, rest: seq<Found>)
    requires DistinctIds(rest) && first.id !in Ids(rest)
    ensures DistinctIds([first] + rest)
  {
    var all := [first] + rest;
    assert forall i :: 1 <= i < |all| ==> all[i] == rest[i - 1] && all[i].id in Ids(rest);
  }

  lemma IdsCons(first: Found, rest: seq<Found>)
    ensures Ids([first] + rest) == {first.id} + Ids(rest)
    ensures [first] + rest != [] && ([first] + rest)[1..] == rest
  {
    var all := [first] + rest;
    assert all[0] == first;
    assert forall i :: 0 <= i < |rest| ==> all[i + 1] == rest[i];
  }

  /** The table after the jobs of a set have been handled, each from its own row. */
  function CleanedRows(before: map<JobId, JobRow>, ids: set<JobId>, restart: bool, now: int, faults: JobId -> Fault)
    : (after: map<JobId, JobRow>)
  {
    map id | id in before ::
      if id in ids && faults(id) != UpdateFails then CleanedUp(before[id], before[id], restart, now) else before[id]
  }

  /** The jobs of a set whose handling goes without an error. */
  function Handled(ids: set<JobId>, faults: JobId -> Fault): (fine: set<JobId>) {
    set id | id in ids && faults(id) == NoFault
  }

  lemma HandledNext(before: map<JobId, JobRow>, ids: set<JobId>, id: JobId, restart: bool, now: int,
                    faults: JobId -> Fault)
    requires id !in ids && id in before
    ensures |Handled(ids + {id}, faults)| == |Handled(ids, faults)| + if faults(id) == NoFault then 1 else 0
    ensures var rows := CleanedRows(before, ids, restart, now, faults);
      && rows[id] == before[id]
      && CleanedRows(before, ids + {id}, restart, now, faults)
         == if faults(id) == UpdateFails then rows else rows[id := CleanedUp(before[id], before[id], restart, now)]
  {
    assert Handled(ids + {id}, faults) == Handled(ids, faults) + if faults(id) == NoFault then {id} else {};
  }

  lemma NotYet(all: seq<Found>, i: nat)
    requires i < |all| && DistinctIds(all)
    ensures all[i].id !in Ids(all[..i])
    ensures Ids(all[..i + 1]) == Ids(all[..i]) + {all[i].id}
  {
    assert all[..i + 1] == all[..i] + [all[i]];
    IdsSnoc(all[..i], all[i]);
  }

  class JobTable {
    var jobs: map<JobId, JobRow>

    constructor (jobs: map<JobId, JobRow>)
      ensures this.jobs == jobs
    {
      this.jobs := jobs;
    }

    /** `atomicStatusTransition` from PENDING with the updates `processImport` gives it: under a row
        lock, only a pending row moves, and only if the commit goes through. It may move and yet throw,
        when giving the connection back fails. */
    method AtomicStatusTransition(id: JobId, node: string, lockedAt: int, startedAt: int, env: TransactionEnv)
      returns (r: Result<bool>)
      modifies this
      ensures jobs == if env.Commits() then WithStart(old(jobs), id, node, lockedAt, startedAt) else old(jobs)
      ensures var wanted := id in old(jobs) && old(jobs)[id].status == Pending;
        && (r.Thrown? <==>
              || env.begin.Some? || env.release.Some?
              || (env.rollback.Some? && (env.query.Some? || if wanted then env.save.Some? else env.abandon.Some?)))
        && (r.Returned? ==> (r.value <==> wanted && env.Commits()))
    {
      if env.begin.Some? {
        return Thrown(env.begin.value);
      }
      var thrown := env.query;
      r := Returned(false);
      if thrown.None? {
        if id !in jobs || jobs[id].status != Pending {
          thrown := env.abandon;
        } else {
          var job := Started(jobs[id], node, lockedAt, startedAt);
          thrown := env.save;
          if thrown.None? {
            jobs := jobs[id := job];
            r := Returned(true);
          }
        }
      }
      if thrown.Some? && env.rollback.Some? {
        r := Thrown(env.rollback.value);
      }
      if env.release.Some? {
        r := Thrown(env.release.value);
      }
    }

    /** `finalizeJob`: a job no longer processing is left alone without an error, a missing one or
        a failed save throws. It may finalize and yet throw, when giving the connection back fails. */
    method FinalizeJob(id: JobId, to: Status, at: int, report: Option<Report>, env: TransactionEnv)
      returns (r: Result<()>)
      modifies this
      ensures jobs == if env.Commits() then WithEnd(old(jobs), id, to, at, report) else old(jobs)
      ensures var wanted := id in old(jobs) && old(jobs)[id].status == Processing;
        r.Thrown? <==>
          || env.begin.Some? || env.release.Some? || id !in old(jobs)
          || env.query.Some? || if wanted then env.save.Some? else env.abandon.Some?
    {
      if env.begin.Some? {
        return Thrown(env.begin.value);
      }
      var thrown := env.query;
      r := Returned(());
      if thrown.None? {
        if id !in jobs {
          thrown := Some("not found during finalization");
        } else if jobs[id].status != Processing {
          thrown := env.abandon;
        } else {
          var job := Finalized(jobs[id], to, at, report);
          thrown := env.save;
          if thrown.None? {
            jobs := jobs[id := job];
          }
        }
      }
      if thrown.Some? {
        r := Thrown(if env.rollback.Some? then env.rollback.value else thrown.value);
      }
      if env.release.Some? {
        r := Thrown(env.release.value);
      }
    }

    /** `updateJobProgress`: an update by id, whatever the status. */
    method UpdateJobProgress(id: JobId, progress: Progress)
      modifies this
      ensures jobs == WithProgress(old(jobs), id, progress)
      ensures jobs.Keys == old(jobs).Keys && (id in jobs ==> jobs[id] == old(jobs)[id].(progress := progress))
      ensures forall other :: other in jobs && other != id ==> jobs[other] == old(jobs)[other]
    {
      if id in jobs {
        jobs := jobs[id := jobs[id].(progress := progress)];
      }
    }

    /** A query: every row with the property once, in no particular order. */
    method Find(t: Thresholds, now: int, byLock: bool) returns (found: seq<Found>)
      ensures DistinctIds(found)
      ensures forall i :: 0 <= i < |found| ==> found[i].id in jobs && found[i].row == jobs[found[i].id]
      ensures forall i :: 0 <= i < |found| ==> MayClean(found[i].row)
      ensures Ids(found) == set id | id in jobs
          && (if byLock then LockTooOld(jobs[id], t, now) else StartedTooLong(jobs[id], t, now))
    {
      found := [];
      var left := set id | id in jobs
          && (if byLock then LockTooOld(jobs[id], t, now) else StartedTooLong(jobs[id], t, now));
      ghost var all := left;
      while left != {}
        invariant left <= all && Ids(found) == all - left
        invariant DistinctIds(found)
        invariant forall i :: 0 <= i < |found| ==> found[i].id in jobs && found[i].row == jobs[found[i].id]
        invariant forall i :: 0 <= i < |found| ==> MayClean(found[i].row)
        decreases left
      {
        var id :| id in left;
        StaleMayBeCleaned(jobs[id], t, now);
        assert Ids(found + [Found(id, jobs[id])]) == Ids(found) + {id} by { IdsSnoc(found, Found(id, jobs[id])); }
        assert forall i :: 0 <= i < |found| ==> found[i].id in Ids(found);
        found := found + [Found(id, jobs[id])];
        left := left - {id};
      }
    }

    /** `deduplicateJobs`. */
    method DeduplicateJobs(found: seq<Found>) returns (kept: seq<Found>)
      ensures kept == Dedup(found, {})
    {
      var seen: set<JobId> := {};
      kept := [];
      for i := 0 to |found|
        invariant kept + Dedup(found[i..], seen) == Dedup(found, {})
      {
        assert found[i..][1..] == found[i + 1..];
        if found[i].id !in seen {
          seen := seen + {found[i].id};
          kept := kept + [found[i]];
        }
      }
    }

    /** `handleStaleImportJob`: the row is rewritten by id from what the scan saw. */
    method HandleStaleImportJob(job: Found, restart: bool, at: int, fault: Fault) returns (r: Result<()>)
      modifies this
      ensures r.Returned? <==> fault == NoFault
      ensures jobs == if fault != UpdateFails then WithCleanup(old(jobs), job, restart, at) else old(jobs)
    {
      if fault == UpdateFails {
        return Thrown("update failed");
      }
      if job.id in jobs {
        var row := jobs[job.id];
        if restart && job.row.status == Processing {
          row := row.(status := Pending, lockedBy := None, lockedAt := None, startedAt := None);
        } else {
          row := row.(status := Failed, lockedBy := None, lockedAt := None, completedAt := Some(at));
        }
        jobs := jobs[job.id := row];
      }
      if fault == LookupFails {
        return Thrown("lock lookup failed");
      }
      return Returned(());
    }

    /** `cleanupStaleImportJobs` with nothing else writing meanwhile: every stale row is cleaned up
        once from its own state, every other row stays, and the count is the number of stale jobs
        whose handling did not fail. */
    method CleanupStaleImportJobs(t: Thresholds, restart: bool, now: int, faults: JobId -> Fault) returns (cleaned: nat)
      modifies this
      ensures jobs.Keys == old(jobs).Keys
      ensures forall id :: id in old(jobs) ==>
                jobs[id] == if Stale(old(jobs)[id], t, now) && faults(id) != UpdateFails
                            then CleanedUp(old(jobs)[id], old(jobs)[id], restart, now) else old(jobs)[id]
      ensures cleaned == |set id | id in old(jobs) && Stale(old(jobs)[id], t, now) && faults(id) == NoFault|
    {
      var staleProcessing := Find(t, now, false);
      var staleLock := Find(t, now, true);
      var all := DeduplicateJobs(staleProcessing + staleLock);
      DedupExact(staleProcessing + staleLock, {});
      IdsConcat(staleProcessing, staleLock);
      assert Ids(all) == set id | id in jobs && Stale(jobs[id], t, now);
      cleaned := HandleAll(all, restart, now, faults);
      assert Handled(Ids(all), faults)
          == (set id | id in old(jobs) && Stale(old(jobs)[id], t, now) && faults(id) == NoFault);
    }

    /** The loop of `cleanupStaleImportJobs`, where one job's failure does not stop the rest. */
    method HandleAll(all: seq<Found>, restart: bool, now: int, faults: JobId -> Fault) returns (cleaned: nat)
      requires DistinctIds(all)
      requires forall i :: 0 <= i < |all| ==> all[i].id in jobs && all[i].row == jobs[all[i].id]
      modifies this
      ensures jobs == CleanedRows(old(jobs), Ids(all), restart, now, faults)
      ensures cleaned == |Handled(Ids(all), faults)|
    {
      cleaned := 0;
      ghost var done: set<JobId> := {};
      for i := 0 to |all|
        invariant done == Ids(all[..i])
        invariant jobs == CleanedRows(old(jobs), done, restart, now, faults)
        invariant cleaned == |Handled(done, faults)|
      {
        var job := all[i];
        NotYet(all, i);
        HandledNext(old(jobs), done, job.id, restart, now, faults);
        var r := HandleStaleImportJob(job, restart, now, faults(job.id));
        done := done + {job.id};
        if r.Returned? {
          cleaned := cleaned + 1;
        }
      }
      assert all[..|all|] == all;
    }

    /** After a pass without database errors over consistent rows, rows are still consistent and no
        job is processing under a lock older than the threshold. */
    method CleanupLeavesNoStaleLock(t: Thresholds, restart: bool, now: int) returns (cleaned: nat)
      requires forall id :: id in jobs ==> Consistent(jobs[id])
      modifies this
      ensures forall id :: id in jobs ==> Consistent(jobs[id]) && !Stale(jobs[id], t, now)
      ensures cleaned == |set id | id in old(jobs) && Stale(old(jobs)[id], t, now)|
    {
      var faults: JobId -> Fault := id => NoFault;
      cleaned := CleanupStaleImportJobs(t, restart, now, faults);
      assert (set id | id in old(jobs) && Stale(old(jobs)[id], t, now) && faults(id) == NoFault)
          == (set id | id in old(jobs) && Stale(old(jobs)[id], t, now));
    }

    /** `forceCleanupImportJob`: picks exactly the rows a cleanup may pick, at once and from their own
        state. */
    method ForceCleanupImportJob(id: JobId, restart: bool, at: int, fault: Fault) returns (r: Result<bool>)
      modifies this
      ensures var picked := id in old(jobs) && MayClean(old(jobs)[id]);
        && (r.Thrown? <==> picked && fault != NoFault)
        && (r.Returned? ==> (r.value <==> picked))
        && jobs == if picked && fault != UpdateFails
                   then WithCleanup(old(jobs), Found(id, old(jobs)[id]), restart, at) else old(jobs)
    {
      if id !in jobs {
        return Returned(false);
      }
      var job := jobs[id];
      if job.status == Processing || job.lockedBy.Some? {
        var _ :- HandleStaleImportJob(Found(id, job), restart, at, fault);
        return Returned(true);
      }
      return Returned(false);
    }
  }

  lemma IdsSnoc(front: seq<Found>, last: Found)
    ensures Ids(front + [last]) == Ids(front) + {last.id}
  {
    var all := front + [last];
    assert all[|front|] == last;
    assert forall i :: 0 <= i < |front| ==> all[i] == front[i];
  }

  lemma IdsConcat(a: seq<Found>, b: seq<Found>)
    ensures Ids(a + b) == Ids(a) + Ids(b)
  {
    var all := a + b;
    assert forall i :: 0 <= i < |a| ==> all[i] == a[i];
    assert forall i :: 0 <= i < |b| ==> all[|a| + i] == b[i];
  }
}
