/** Cleanup and finalization against the runs of a job: what cleanup can know of a run, what becomes of a
    run it has cleaned, and whose run a delivery finalizes. */
module JobCleanup {
  import opened Wrappers
  import opened ImportJobs
  import opened JobProtocol
  import opened JobLocks
  import L = DistributedLock

  /** The delivery that started a job last. */
  function LastStarter(begun: seq<Mark>, job: JobId): (d: Option<DeliveryId>) {
    if begun == [] then None
    else if begun[|begun| - 1].job == job then Some(begun[|begun| - 1].delivery)
    else LastStarter(begun[..|begun| - 1], job)
  }

  lemma LastStarterSnoc(begun: seq<Mark>, mark: Mark, job: JobId)
    ensures LastStarter(begun + [mark], job) == if mark.job == job then Some(mark.delivery) else LastStarter(begun, job)
  {
    assert (begun + [mark])[..|begun|] == begun;
  }

  /** A step starts a job: its delivery was inside the lock and not yet executing, and is recorded. */
  predicate Starts(s: State, step: Step, s': State, job: JobId) {
    && step.Start? && In(s, step.d, {Locked}) && s.deliveries[step.d].job == job
    && s'.begun == s.begun + [Mark(job, step.d)]
  }

  predicate IsProcessing(s: State, job: JobId) {
    job in s.jobs && s.jobs[job].status == Processing
  }

  /** The columns a start stamps. */
  predicate SameStamps(a: JobRow, b: JobRow) {
    a.lockedBy == b.lockedBy && a.lockedAt == b.lockedAt && a.startedAt == b.startedAt
  }

  // ---------------------------------------------------------------------------------------
  // One step
  // ---------------------------------------------------------------------------------------

  /** Starts are recorded, and nothing else is. */
  lemma BegunGrows(restart: bool, s: State, step: Step, job: JobId)
    requires Enabled(s, step)
    ensures var s' := Next(restart, s, step);
      Starts(s, step, s', job) || LastStarter(s'.begun, job) == LastStarter(s.begun, job)
  {
    if step.Start? {
      LastStarterSnoc(s.begun, Mark(s.deliveries[step.d].job, step.d), job);
    }
  }

  /** A job is processing because this step started it, or was so before with the same stamps: no step
      renews them. */
  lemma StaysProcessing(restart: bool, s: State, step: Step, job: JobId)
    requires Enabled(s, step) && IsProcessing(Next(restart, s, step), job)
    ensures var s' := Next(restart, s, step);
      || (&& Starts(s, step, s', job)
          && s'.jobs[job].lockedBy == Some(s.deliveries[step.d].node)
          && s'.jobs[job].lockedAt == Some(step.lockedAt) && s'.jobs[job].startedAt == Some(step.startedAt))
      || (&& IsProcessing(s, job) && SameStamps(s'.jobs[job], s.jobs[job]) && !Starts(s, step, s', job))
  {
  }

  /** A delivery executes because this step started its job, or it did before. */
  lemma StaysExecuting(restart: bool, s: State, step: Step, d: DeliveryId)
    requires Enabled(s, step) && In(Next(restart, s, step), d, {Executing, Failing})
    ensures d in s.deliveries && Next(restart, s, step).deliveries[d].job == s.deliveries[d].job
    ensures In(s, d, {Executing, Failing})
            || (step.Start? && step.d == d && Starts(s, step, Next(restart, s, step), s.deliveries[d].job))
  {
  }

  // ---------------------------------------------------------------------------------------
  // What cleanup can know
  // ---------------------------------------------------------------------------------------

  /** The stamps of a processing job are those of its last start, however long ago that was and however
      often the lock in Redis has been renewed since. */
  lemma {:induction false} StampsAreTheLastStarts(restart: bool, steps: seq<Step>, n: nat, job: JobId)
    returns (p: nat)
    requires n <= |steps| && Run(restart, START, steps).Some? && IsProcessing(At(restart, steps, n), job)
    ensures p < n && steps[p].Start?
    ensures Starts(At(restart, steps, p), steps[p], At(restart, steps, p + 1), job)
    ensures LastStarter(At(restart, steps, n).begun, job) == Some(steps[p].d)
    ensures var row := At(restart, steps, n).jobs[job];
      && row.lockedBy == Some(At(restart, steps, p).deliveries[steps[p].d].node)
      && row.lockedAt == Some(steps[p].lockedAt) && row.startedAt == Some(steps[p].startedAt)
    decreases n
  {
    var s := At(restart, steps, n - 1);
    AtNext(restart, steps, n - 1);
    StaysProcessing(restart, s, steps[n - 1], job);
    BegunGrows(restart, s, steps[n - 1], job);
    if Starts(s, steps[n - 1], At(restart, steps, n), job) {
      p := n - 1;
      LastStarterSnoc(s.begun, Mark(job, steps[p].d), job);
    } else {
      p := StampsAreTheLastStarts(restart, steps, n - 1, job);
    }
  }

  /** When a cleanup pass is due, a processing job is picked if and only if its start or its lock stamp
      is older than its threshold: what Redis holds, and whether the run is alive, has no part in it. */
  lemma CleanupLooksAtTheStartOnly(restart: bool, steps: seq<Step>, n: nat, job: JobId, t: Thresholds, now: int)
    returns (p: nat)
    requires n <= |steps| && Run(restart, START, steps).Some? && IsProcessing(At(restart, steps, n), job)
    ensures p < n && steps[p].Start? && LastStarter(At(restart, steps, n).begun, job) == Some(steps[p].d)
    ensures Stale(At(restart, steps, n).jobs[job], t, now)
       <==> steps[p].startedAt < now - t.staleMs || steps[p].lockedAt < now - t.staleLockMs
  {
    p := StampsAreTheLastStarts(restart, steps, n, job);
  }

  // ---------------------------------------------------------------------------------------
  // Whose run a delivery finalizes
  // ---------------------------------------------------------------------------------------

  /** With renewals in time an executing delivery is the one that started its job last. */
  lemma {:induction false} ExecutingIsLastStarter(restart: bool, steps: seq<Step>, i: nat, job: JobId, d: DeliveryId)
    requires i <= |steps| && Run(restart, START, steps).Some? && RenewedInTime(restart, steps, job)
    requires In(At(restart, steps, i), d, {Executing, Failing}) && At(restart, steps, i).deliveries[d].job == job
    ensures LastStarter(At(restart, steps, i).begun, job) == Some(d)
  {
    var s := At(restart, steps, i - 1);
    var step := steps[i - 1];
    AtNext(restart, steps, i - 1);
    StaysExecuting(restart, s, step, d);
    BegunGrows(restart, s, step, job);
    if Starts(s, step, At(restart, steps, i), job) {
      LastStarterSnoc(s.begun, Mark(job, step.d), job);
      if In(s, d, {Executing, Failing}) {
        OneInsideAtATime(restart, steps, i - 1, job, d, step.d);
        assert false;
      }
    } else {
      ExecutingIsLastStarter(restart, steps, i - 1, job, d);
    }
  }

  /** So a finalization that changes a row ends the run its own delivery started: the row still has that
      delivery's node as its holder. */
  lemma FinalizesItsOwnRun(restart: bool, steps: seq<Step>, n: nat) returns (p: nat)
    requires n < |steps| && Run(restart, START, steps).Some? && steps[n].Finalize?
    requires steps[n].d in At(restart, steps, n).deliveries
    requires var job := At(restart, steps, n).deliveries[steps[n].d].job;
      RenewedInTime(restart, steps, job) && At(restart, steps, n + 1).jobs != At(restart, steps, n).jobs
    ensures p < n && steps[p].Start? && steps[p].d == steps[n].d
    ensures var job := At(restart, steps, n).deliveries[steps[n].d].job;
      && LastStarter(At(restart, steps, n).begun, job) == Some(steps[n].d)
      && IsProcessing(At(restart, steps, n), job)
      && At(restart, steps, n).jobs[job].startedAt == Some(steps[p].startedAt)
  {
    var job := At(restart, steps, n).deliveries[steps[n].d].job;
    AtNext(restart, steps, n);
    ExecutingIsLastStarter(restart, steps, n, job, steps[n].d);
    p := StampsAreTheLastStarts(restart, steps, n, job);
  }

  /** Without timely renewals it need not be: the guard looks at the status and not at the holder, so
      that a delivery whose job was reset and started by another completes the other's run, with
      whatever counters and errors it has itself. */
  lemma CompletesAnothersRun() returns (s: State)
    ensures Reachable(true, s) && In(s, 0, {Executing}) && s.deliveries[0].job == "j"
    ensures "j" in s.jobs && LastStarter(s.begun, "j") == Some(1)
    ensures forall at, report ::
      Next(true, s, Finalize(0, Completed, at, report, L.Answered)).jobs
      == s.jobs["j" := Finalized(s.jobs["j"], Completed, at, report)]
  {
    s := ExpiredLockLetsTwoExecute();
  }

  // ---------------------------------------------------------------------------------------
  // What becomes of a run that was cleaned
  // ---------------------------------------------------------------------------------------

  predicate Executes(s: State, d: DeliveryId, job: JobId) {
    In(s, d, {Executing, Failing}) && s.deliveries[d].job == job
  }

  /** While a delivery executes and renewals come in time, no other can start its job. */
  lemma NotStartedMeanwhile(restart: bool, steps: seq<Step>, k: nat, d: DeliveryId, job: JobId)
    requires k < |steps| && Run(restart, START, steps).Some? && RenewedInTime(restart, steps, job)
    requires Executes(At(restart, steps, k), d, job) && !IsProcessing(At(restart, steps, k), job)
    ensures !IsProcessing(At(restart, steps, k + 1), job)
  {
    AtNext(restart, steps, k);
    if IsProcessing(At(restart, steps, k + 1), job) {
      StaysProcessing(restart, At(restart, steps, k), steps[k], job);
      OneInsideAtATime(restart, steps, k, job, d, steps[k].d);
      assert false;
    }
  }

  lemma FinalizesNothing(restart: bool, s: State, step: Step)
    requires Enabled(s, step) && step.Finalize? && step.d in s.deliveries
    requires !IsProcessing(s, s.deliveries[step.d].job)
    ensures Next(restart, s, step).jobs == s.jobs
  {
  }

  /** A healthy run that cleanup took away is lost, whether cleanup fails or restarts jobs: as long as its
      delivery executes, with renewals in time, the job does not become processing again, so that
      nothing the delivery finalizes is recorded. */
  lemma {:induction false} CleanedRunIsLost(restart: bool, steps: seq<Step>, m: nat, n: nat, d: DeliveryId, job: JobId)
    requires m <= n <= |steps| && Run(restart, START, steps).Some? && RenewedInTime(restart, steps, job)
    requires forall k :: m <= k <= n ==> Executes(At(restart, steps, k), d, job)
    requires !IsProcessing(At(restart, steps, m), job)
    ensures !IsProcessing(At(restart, steps, n), job)
    ensures n < |steps| && steps[n].Finalize? && steps[n].d == d ==>
              At(restart, steps, n + 1).jobs == At(restart, steps, n).jobs
    decreases n
  {
    if n > m {
      CleanedRunIsLost(restart, steps, m, n - 1, d, job);
      NotStartedMeanwhile(restart, steps, n - 1, d, job);
    }
    assert Executes(At(restart, steps, n), d, job);
    if n < |steps| && steps[n].Finalize? && steps[n].d == d {
      AtNext(restart, steps, n);
      FinalizesNothing(restart, At(restart, steps, n), steps[n]);
    }
  }

  /** Where cleanup does not restart jobs, one that it failed ends as FAILED in every continuation, with
      the errors it had, though the batches its delivery wrote stay and more may follow. */
  lemma {:induction false} FailedForGood(s: State, steps: seq<Step>, id: JobId)
    requires Reachable(false, s) && Run(false, s, steps).Some?
    requires id in s.jobs && s.jobs[id].status == Failed
    ensures var end := Run(false, s, steps).value;
      && id in end.jobs && end.jobs[id].status == Failed && end.jobs[id].errors == s.jobs[id].errors
      && s.writes <= end.writes
    decreases |steps|
  {
    if steps != [] {
      var s' := Next(false, s, steps[0]);
      OnlyLateCleanupMovesTerminal(false, s, steps[0], id);
      FailedKeepsErrors(s, steps[0], id);
      ReachableStep(false, s, steps[0]);
      FailedForGood(s', steps[1..], id);
    }
  }

  lemma FailedKeepsErrors(s: State, step: Step, id: JobId)
    requires Enabled(s, step) && id in s.jobs && s.jobs[id].status == Failed
    ensures var s' := Next(false, s, step);
            id in s'.jobs && s'.jobs[id].errors == s.jobs[id].errors && s.writes <= s'.writes
  {
  }

  /** The case itself: cleanup fails a job whose delivery is executing, and nothing that happens later,
      the delivery's own completion included, makes it anything but FAILED. */
  lemma CleanedWhileExecuting(s: State, id: JobId, d: DeliveryId, at: int, steps: seq<Step>)
    requires Reachable(false, s) && Executes(s, d, id) && IsProcessing(s, id)
    requires Run(false, Next(false, s, ScanAndClean(id, at)), steps).Some?
    ensures var end := Run(false, Next(false, s, ScanAndClean(id, at)), steps).value;
      && id in end.jobs && end.jobs[id].status == Failed && end.jobs[id].errors == s.jobs[id].errors
      && s.writes <= end.writes
    ensures Executes(Next(false, s, ScanAndClean(id, at)), d, id)
  {
    ReachableStep(false, s, ScanAndClean(id, at));
    FailedForGood(Next(false, s, ScanAndClean(id, at)), steps, id);
  }

  // ---------------------------------------------------------------------------------------
  // Healthy and stale
  // ---------------------------------------------------------------------------------------

  /** A first delivery executes, `k` renewals on. */
  ghost predicate RenewedSoOften(restart: bool, steps: seq<Step>, k: nat) {
    && Run(restart, START, steps).Some? && RenewedInTime(restart, steps, "j")
    && var end := At(restart, steps, |steps|);
       && end.deliveries == map[0 := Delivery("j", "n", "t", Executing)]
       && end.jobs == map["j" := Started(NEW_JOB, "n", 0, 0)]
       && end.redis.now == 150000 * k
       && AskedUntil(restart, steps, |steps|, 0) == end.redis.now + 300000
  }

  /** The states of a run do not depend on what follows. */
  lemma {:induction false} PrefixAlike(restart: bool, steps: seq<Step>, more: seq<Step>, i: nat, d: DeliveryId)
    requires Run(restart, START, steps + more).Some? && Run(restart, START, steps).Some? && i <= |steps|
    ensures At(restart, steps + more, i) == At(restart, steps, i)
    ensures AskedUntil(restart, steps + more, i, d) == AskedUntil(restart, steps, i, d)
  {
    assert (steps + more)[..i] == steps[..i];
    if i > 0 {
      PrefixAlike(restart, steps, more, i - 1, d);
    }
  }

  lemma TwoSteps(restart: bool, s: State, first: Step, second: Step)
    requires Enabled(s, first) && Enabled(Next(restart, s, first), second)
    ensures Run(restart, s, [first, second]) == Some(Next(restart, Next(restart, s, first), second))
  {
    var mid := Next(restart, s, first);
    assert [first, second][1..] == [second] && [second][1..] == [];
    assert Run(restart, mid, [second]) == Run(restart, Next(restart, mid, second), []);
  }

  lemma FirstDelivery(restart: bool) returns (steps: seq<Step>, s: State)
    ensures Run(restart, START, steps) == Some(s) && |steps| == 2 && steps[0].CreateJob? && steps[1].Deliver?
    ensures s.deliveries == map[0 := Delivery("j", "n", "t", Arrived)] && s.jobs == map["j" := NEW_JOB]
    ensures s.redis == L.Server(0, map[])
  {
    steps := [CreateJob("j"), Deliver(0, "j", "n", "t")];
    TwoSteps(restart, START, steps[0], steps[1]);
    s := Run(restart, START, steps).value;
  }

  lemma FirstStart(restart: bool, s: State)
    requires s.deliveries == map[0 := Delivery("j", "n", "t", Arrived)] && s.jobs == map["j" := NEW_JOB]
    requires s.redis == L.Server(0, map[])
    ensures var r := Run(restart, s, [TakeLock(0, 300000, L.Answered), Start(0, 0, 0, L.Answered)]);
      && r.Some? && r.value.redis.now == 0
      && r.value.deliveries == map[0 := Delivery("j", "n", "t", Executing)]
      && r.value.jobs == map["j" := Started(NEW_JOB, "n", 0, 0)]
  {
    var taken := Next(restart, s, TakeLock(0, 300000, L.Answered));
    assert taken.deliveries == map[0 := Delivery("j", "n", "t", Locked)] && taken.jobs == s.jobs;
    TwoSteps(restart, s, TakeLock(0, 300000, L.Answered), Start(0, 0, 0, L.Answered));
  }

  lemma FirstRun(restart: bool) returns (steps: seq<Step>)
    ensures RenewedSoOften(restart, steps, 0)
  {
    var early, delivered := FirstDelivery(restart);
    var take, start := TakeLock(0, 300000, L.Answered), Start(0, 0, 0, L.Answered);
    steps := early + [take, start];
    FirstStart(restart, delivered);
    RunAppend(restart, START, early, [take, start]);
    assert steps[..2] == early && steps[..4] == steps;
    NoTimePasses(restart, steps);
    AskedByTaking(restart, steps, 2);
  }

  lemma NoTimePasses(restart: bool, steps: seq<Step>)
    requires Run(restart, START, steps).Some?
    requires forall m :: 0 <= m < |steps| ==> !steps[m].Elapse? && !steps[m].ShutdownDel?
    ensures RenewedInTime(restart, steps, "j")
  {
  }

  lemma AskedByTaking(restart: bool, steps: seq<Step>, n: nat)
    requires n + 2 == |steps| && Run(restart, START, steps).Some?
    requires steps[n] == TakeLock(0, 300000, L.Answered) && steps[n + 1].Start?
    ensures AskedUntil(restart, steps, |steps|, 0) == At(restart, steps, n).redis.now + 300000
  {
    assert AskedUntil(restart, steps, n + 1, 0) == At(restart, steps, n).redis.now + 300000;
  }

  lemma OneMoreRenewal(restart: bool, steps: seq<Step>, k: nat) returns (longer: seq<Step>)
    requires RenewedSoOften(restart, steps, k)
    ensures RenewedSoOften(restart, longer, k + 1)
  {
    var n := |steps|;
    var elapse, renew := Elapse(150000), RenewLock(0, 300000, L.Answered);
    longer := steps + [elapse, renew];
    assert steps[..n] == steps;
    RunAppend(restart, START, steps, [elapse, renew]);
    TwoSteps(restart, At(restart, steps, n), elapse, renew);
    forall m, d | 0 <= m < |longer| && longer[m].Elapse? && InsideJob(At(restart, longer, m), d, "j")
      ensures At(restart, longer, m).redis.now + longer[m].ms < AskedUntil(restart, longer, m, d)
    {
      PrefixAlike(restart, steps, [elapse, renew], m, d);
      if m < n {
        assert longer[m] == steps[m];
      }
    }
    PrefixAlike(restart, steps, [elapse, renew], n, 0);
    AtNext(restart, longer, n);
    AtNext(restart, longer, n + 1);
  }

  lemma {:induction false} RenewedRun(restart: bool, k: nat) returns (steps: seq<Step>)
    ensures RenewedSoOften(restart, steps, k)
  {
    if k == 0 {
      steps := FirstRun(restart);
    } else {
      steps := RenewedRun(restart, k - 1);
      steps := OneMoreRenewal(restart, steps, k - 1);
    }
  }

  /** For all thresholds there is a run with renewals in time in which a delivery executes under a lock
      that Redis holds for it, and its job is stale by the same clock. */
  lemma HealthyJobTurnsStale(restart: bool, t: Thresholds) returns (steps: seq<Step>)
    ensures Run(restart, START, steps).Some? && RenewedInTime(restart, steps, "j")
    ensures var s := Run(restart, START, steps).value;
      Executes(s, 0, "j") && HasLock(s, 0) && IsProcessing(s, "j") && Stale(s.jobs["j"], t, s.redis.now)
  {
    steps := RenewedRun(restart, if t.staleMs < 0 then 1 else t.staleMs + 1);
    assert steps[..|steps|] == steps;
    RenewedLockIsHeld(restart, steps, |steps|, 0);
  }
}
