/** What the Redis lock gives the job protocol, whether or not cleanup restarts jobs: two deliveries are
    inside one job's lock only after the lock of the first has run out or a shutdown has deleted it. */
module JobLocks {
  import opened Wrappers
  import opened ImportJobs
  import opened JobProtocol
  import L = DistributedLock

  /** The delivery has won the lock and not yet released it. */
  predicate Inside(s: State, d: DeliveryId) {
    In(s, d, {Locked, Executing, Failing, Leaving})
  }

  predicate InsideJob(s: State, d: DeliveryId, job: JobId) {
    Inside(s, d) && s.deliveries[d].job == job
  }

  predicate InsideAs(s: State, d: DeliveryId, job: JobId, token: string) {
    Inside(s, d) && s.deliveries[d].job == job && s.deliveries[d].token == token
  }

  function KeyOf(s: State, d: DeliveryId): (key: string)
    requires d in s.deliveries
  {
    LockKey(s.deliveries[d].job)
  }

  /** Redis has the delivery's own token under its job's key. */
  predicate HasLock(s: State, d: DeliveryId) {
    d in s.deliveries && L.Holder(s.redis, KeyOf(s, d)) == Some(s.deliveries[d].token)
  }

  // ---------------------------------------------------------------------------------------
  // The states of a run
  // ---------------------------------------------------------------------------------------

  /** The state just before step number `i` of a run. */
  function At(restart: bool, steps: seq<Step>, i: nat): (s: State)
    requires i <= |steps| && Run(restart, START, steps).Some?
  {
    assert steps == steps[..i] + steps[i..];
    RunAppend(restart, START, steps[..i], steps[i..]);
    Run(restart, START, steps[..i]).value
  }

  lemma AtNext(restart: bool, steps: seq<Step>, i: nat)
    requires i < |steps| && Run(restart, START, steps).Some?
    ensures Enabled(At(restart, steps, i), steps[i])
    ensures At(restart, steps, i + 1) == Next(restart, At(restart, steps, i), steps[i])
  {
    var before := At(restart, steps, i);
    var after := At(restart, steps, i + 1);
    assert steps[..i + 1] == steps[..i] + [steps[i]];
    assert Run(restart, START, steps[..i + 1]).Some? by {
      assert steps == steps[..i + 1] + steps[i + 1..];
      RunAppend(restart, START, steps[..i + 1], steps[i + 1..]);
    }
    RunAppend(restart, START, steps[..i], [steps[i]]);
    assert [steps[i]][1..] == [];
  }

  // ---------------------------------------------------------------------------------------
  // Tokens
  // ---------------------------------------------------------------------------------------

  /** No two deliveries have the same token. */
  ghost predicate OwnTokens(s: State) {
    && (forall d :: d in s.deliveries ==> d in s.used && s.deliveries[d].token in s.tokens)
    && (forall a, b :: a in s.deliveries && b in s.deliveries && a != b ==>
          s.deliveries[a].token != s.deliveries[b].token)
  }

  /** What a step leaves of one delivery. */
  lemma DeliveryStays(restart: bool, s: State, step: Step, d: DeliveryId)
    requires Enabled(s, step) && d in Next(restart, s, step).deliveries && !(step.Deliver? && step.d == d)
    ensures d in s.deliveries && Next(restart, s, step).deliveries[d].token == s.deliveries[d].token
    ensures s.used <= Next(restart, s, step).used && s.tokens <= Next(restart, s, step).tokens
  {
  }

  lemma StepKeepsTokens(restart: bool, s: State, step: Step)
    requires Enabled(s, step) && OwnTokens(s)
    ensures OwnTokens(Next(restart, s, step))
  {
    var s' := Next(restart, s, step);
    forall d | d in s'.deliveries && !(step.Deliver? && step.d == d)
      ensures d in s.deliveries && s'.deliveries[d].token == s.deliveries[d].token
      ensures d in s'.used && s'.deliveries[d].token in s'.tokens
    {
      DeliveryStays(restart, s, step, d);
    }
    if step.Deliver? {
      assert s'.deliveries[step.d].token == step.token;
    }
  }

  lemma {:induction false} TokensAreOwn(restart: bool, steps: seq<Step>, i: nat)
    requires i <= |steps| && Run(restart, START, steps).Some?
    ensures OwnTokens(At(restart, steps, i))
  {
    if i > 0 {
      TokensAreOwn(restart, steps, i - 1);
      AtNext(restart, steps, i - 1);
      StepKeepsTokens(restart, At(restart, steps, i - 1), steps[i - 1]);
    }
  }

  // ---------------------------------------------------------------------------------------
  // One step
  // ---------------------------------------------------------------------------------------

  /** A delivery comes inside by winning the lock, and no other way. */
  lemma ComesInside(restart: bool, s: State, step: Step, d: DeliveryId)
    requires Enabled(s, step) && Inside(Next(restart, s, step), d)
    ensures d in s.deliveries
    ensures var s' := Next(restart, s, step);
      s'.deliveries[d].job == s.deliveries[d].job && s'.deliveries[d].token == s.deliveries[d].token
    ensures !Inside(s, d) ==>
      && step.TakeLock? && step.d == d
      && L.Succeeds(s.redis, L.Acquire(KeyOf(s, d), s.deliveries[d].token, step.ttl))
      && Next(restart, s, step).redis == L.Step(s.redis, L.Acquire(KeyOf(s, d), s.deliveries[d].token, step.ttl))
    ensures Inside(s, d) ==> !step.TakeLock? || step.d != d
  {
  }

  /** The lock a token holds for a job is lost at a step: it runs out, or a node that shuts down deletes
      the job's key. */
  predicate Loses(s: State, step: Step, job: JobId, token: string) {
    || (step.Elapse? && L.RunsOut(s.redis, L.Advance(step.ms), LockKey(job), token))
    || step == ShutdownDel(job)
  }

  lemma KeysDiffer(a: JobId, b: JobId)
    ensures LockKey(a) == LockKey(b) <==> a == b
  {
    assert LockKey(a)[|"lock:import-job:"|..] == a && LockKey(b)[|"lock:import-job:"|..] == b;
  }

  /** The lock of a delivery that stays inside goes in no other way: other deliveries have other
      tokens. */
  lemma LockStays(restart: bool, s: State, step: Step, d: DeliveryId)
    requires Enabled(s, step) && OwnTokens(s) && Inside(s, d) && HasLock(s, d)
    requires Inside(Next(restart, s, step), d)
    requires !Loses(s, step, s.deliveries[d].job, s.deliveries[d].token)
    ensures HasLock(Next(restart, s, step), d)
  {
    ComesInside(restart, s, step, d);
    if step.ShutdownDel? {
      KeysDiffer(s.deliveries[d].job, step.job);
    }
  }

  // ---------------------------------------------------------------------------------------
  // Whole runs
  // ---------------------------------------------------------------------------------------

  /** A delivery inside the lock won it at some step `p` and has been inside ever since. */
  lemma {:induction false} TookLock(restart: bool, steps: seq<Step>, n: nat, d: DeliveryId, job: JobId, token: string)
    returns (p: nat)
    requires n <= |steps| && Run(restart, START, steps).Some? && InsideAs(At(restart, steps, n), d, job, token)
    ensures p < n && steps[p].TakeLock? && steps[p].d == d
    ensures forall k :: p < k <= n ==> InsideAs(At(restart, steps, k), d, job, token)
    ensures L.Succeeds(At(restart, steps, p).redis, L.Acquire(LockKey(job), token, steps[p].ttl))
    ensures HasLock(At(restart, steps, p + 1), d)
    decreases n
  {
    var s := At(restart, steps, n - 1);
    AtNext(restart, steps, n - 1);
    ComesInside(restart, s, steps[n - 1], d);
    if Inside(s, d) {
      p := TookLock(restart, steps, n - 1, d, job, token);
    } else {
      p := n - 1;
    }
  }

  /** The lock a token holds for a job is lost at step `m`. */
  ghost predicate LosesAt(restart: bool, steps: seq<Step>, m: nat, job: JobId, token: string)
    requires m < |steps| && Run(restart, START, steps).Some?
  {
    Loses(At(restart, steps, m), steps[m], job, token)
  }

  /** From the win on, and as long as the delivery is inside and its lock is not lost so, Redis has its
      token, whatever all others send. */
  lemma {:induction false} LockStaysDuring(restart: bool, steps: seq<Step>, p: nat, n: nat, d: DeliveryId, job: JobId,
                                           token: string)
    requires p < n <= |steps| && Run(restart, START, steps).Some? && HasLock(At(restart, steps, p + 1), d)
    requires forall k :: p < k <= n ==> InsideAs(At(restart, steps, k), d, job, token)
    requires forall m :: p < m < n ==> !LosesAt(restart, steps, m, job, token)
    ensures HasLock(At(restart, steps, n), d)
    decreases n
  {
    if n > p + 1 {
      LockStaysDuring(restart, steps, p, n - 1, d, job, token);
      AtNext(restart, steps, n - 1);
      TokensAreOwn(restart, steps, n - 1);
      assert !LosesAt(restart, steps, n - 1, job, token);
      LockStays(restart, At(restart, steps, n - 1), steps[n - 1], d);
    }
  }

  /** One node at a time, over every run, with crashes, lost replies, redelivery and restarts: when two
      deliveries of one job are inside its lock together, the lock of the one that won first ran out, or
      was deleted by a node shutting down, after its win and before the other's. */
  lemma OverlapNeedsExpiry(restart: bool, steps: seq<Step>, a: DeliveryId, b: DeliveryId)
    returns (first: DeliveryId, p: nat, m: nat, q: nat)
    requires Run(restart, START, steps).Some? && a != b
    requires var end := Run(restart, START, steps).value;
      Inside(end, a) && Inside(end, b) && end.deliveries[a].job == end.deliveries[b].job
    ensures first == a || first == b
    ensures p < m < q < |steps|
    ensures steps[p].TakeLock? && steps[p].d == first
    ensures steps[q].TakeLock? && steps[q].d == if first == a then b else a
    ensures var w := Run(restart, START, steps).value.deliveries[first]; LosesAt(restart, steps, m, w.job, w.token)
  {
    assert steps[..|steps|] == steps;
    var end := Run(restart, START, steps).value;
    var job := end.deliveries[a].job;
    var pa := TookLock(restart, steps, |steps|, a, job, end.deliveries[a].token);
    var pb := TookLock(restart, steps, |steps|, b, job, end.deliveries[b].token);
    first, p, q := if pa < pb then a else b, if pa < pb then pa else pb, if pa < pb then pb else pa;
    var token := end.deliveries[first].token;
    if m' :| p < m' < q && LosesAt(restart, steps, m', job, token) {
      m := m';
    } else {
      assert InsideAs(At(restart, steps, q), first, job, token);
      LockStaysDuring(restart, steps, p, q, first, job, token);
      assert false;
    }
  }

  // ---------------------------------------------------------------------------------------
  // Renewals in time
  // ---------------------------------------------------------------------------------------

  /** Until when a delivery's own commands have asked for the lock by step `i`: its winning one, or the
      last renewal that was carried out, and the time to live of that command. */
  function AskedUntil(restart: bool, steps: seq<Step>, i: nat, d: DeliveryId): (ms: int)
    requires i <= |steps| && Run(restart, START, steps).Some?
  {
    if i == 0 then 0
    else
      var now := At(restart, steps, i - 1).redis.now;
      if steps[i - 1].TakeLock? && steps[i - 1].d == d then now + steps[i - 1].ttl
      else if steps[i - 1].RenewLock? && steps[i - 1].d == d && Applied(steps[i - 1].reply) then now + steps[i - 1].ttl
      else AskedUntil(restart, steps, i - 1, d)
  }

  /** No time passes beyond what a delivery inside a job's lock has asked for, and no shutdown deletes
      the job's key. */
  ghost predicate RenewedInTime(restart: bool, steps: seq<Step>, job: JobId)
    requires Run(restart, START, steps).Some?
  {
    && (forall m, d :: 0 <= m < |steps| && steps[m].Elapse? && InsideJob(At(restart, steps, m), d, job) ==>
          At(restart, steps, m).redis.now + steps[m].ms < AskedUntil(restart, steps, m, d))
    && (forall m :: 0 <= m < |steps| ==> steps[m] != ShutdownDel(job))
  }

  /** Redis has the delivery's token, with just the expiry the delivery has asked for. */
  ghost predicate HasLockUntil(s: State, d: DeliveryId, until: int) {
    && d in s.deliveries && KeyOf(s, d) in s.redis.store
    && s.redis.store[KeyOf(s, d)] == L.Entry(s.deliveries[d].token, until)
    && s.redis.now < until
  }

  lemma UntilNext(restart: bool, s: State, step: Step, d: DeliveryId, until: int)
    requires Enabled(s, step) && OwnTokens(s) && Inside(s, d) && HasLockUntil(s, d, until)
    requires Inside(Next(restart, s, step), d)
    requires step.Elapse? ==> s.redis.now + step.ms < until
    requires step != ShutdownDel(s.deliveries[d].job)
    ensures HasLockUntil(Next(restart, s, step), d,
        if step.RenewLock? && step.d == d && Applied(step.reply) then s.redis.now + step.ttl else until)
  {
    ComesInside(restart, s, step, d);
    if step.ShutdownDel? {
      KeysDiffer(s.deliveries[d].job, step.job);
    }
  }

  lemma {:induction false} RenewedLockIsHeld(restart: bool, steps: seq<Step>, i: nat, d: DeliveryId)
    requires i <= |steps| && Run(restart, START, steps).Some? && Inside(At(restart, steps, i), d)
    requires RenewedInTime(restart, steps, At(restart, steps, i).deliveries[d].job)
    ensures HasLockUntil(At(restart, steps, i), d, AskedUntil(restart, steps, i, d))
  {
    var s := At(restart, steps, i - 1);
    AtNext(restart, steps, i - 1);
    ComesInside(restart, s, steps[i - 1], d);
    if Inside(s, d) {
      RenewedLockIsHeld(restart, steps, i - 1, d);
      TokensAreOwn(restart, steps, i - 1);
      UntilNext(restart, s, steps[i - 1], d, AskedUntil(restart, steps, i - 1, d));
    }
  }

  /** With renewals in time at most one delivery of a job is inside its lock, so at most one executes:
      the lock alone sees to it, whatever crashes, is redelivered or is reset by cleanup. */
  lemma OneInsideAtATime(restart: bool, steps: seq<Step>, i: nat, job: JobId, a: DeliveryId, b: DeliveryId)
    requires i <= |steps| && Run(restart, START, steps).Some? && RenewedInTime(restart, steps, job)
    requires InsideJob(At(restart, steps, i), a, job) && InsideJob(At(restart, steps, i), b, job)
    ensures a == b
  {
    RenewedLockIsHeld(restart, steps, i, a);
    RenewedLockIsHeld(restart, steps, i, b);
    TokensAreOwn(restart, steps, i);
  }

  // ---------------------------------------------------------------------------------------
  // Without them
  // ---------------------------------------------------------------------------------------

  /** Where cleanup restarts jobs, a lock that runs out does let two deliveries of one job execute. */
  lemma ExpiredLockLetsTwoExecute() returns (s: State)
    ensures Reachable(true, s)
    ensures In(s, 0, {Executing}) && In(s, 1, {Executing}) && s.deliveries[0].job == s.deliveries[1].job == "j"
    ensures "j" in s.jobs && s.jobs["j"].status == Processing
    ensures s.begun != [] && s.begun[|s.begun| - 1] == Mark("j", 1)
  {
    s := ExpiredJob();
    s := Then(s, TakeLock(1, 300000, L.Answered));
    s := Then(s, Start(1, 0, 0, L.Answered));
  }

  /** So does a shutdown's `del`. */
  lemma ShutdownLetsTwoExecute() returns (s: State)
    ensures Reachable(true, s)
    ensures In(s, 0, {Executing}) && In(s, 1, {Executing}) && s.deliveries[0].job == s.deliveries[1].job
    ensures s.redis.now == 0
  {
    s := DeletedJob();
    s := Then(s, TakeLock(1, 300000, L.Answered));
    s := Then(s, Start(1, 0, 0, L.Answered));
  }

  /** A job whose lock was deleted while it executed has been reset and delivered again. */
  lemma DeletedJob() returns (s: State)
    ensures Reachable(true, s) && s.jobs.Keys == {"j"} && s.jobs["j"].status == Pending && s.redis.now == 0
    ensures s.deliveries == map[0 := Delivery("j", "n", "t", Executing), 1 := Delivery("j", "n", "u", Arrived)]
    ensures L.Holder(s.redis, LockKey("j")) == None
  {
    s := RunningJob(true);
    s := Then(s, ShutdownDel("j"));
    s := Then(s, ScanAndClean("j", 0));
    s := Then(s, Deliver(1, "j", "n", "u"));
  }

  /** A job whose lock ran out while it executed has been reset and delivered again. */
  lemma ExpiredJob() returns (s: State)
    ensures Reachable(true, s) && s.jobs.Keys == {"j"} && s.jobs["j"].status == Pending
    ensures s.deliveries == map[0 := Delivery("j", "n", "t", Executing), 1 := Delivery("j", "n", "u", Arrived)]
    ensures L.Holder(s.redis, LockKey("j")) == None
  {
    s := RunningJob(true);
    s := Then(s, Elapse(300000));
    s := Then(s, ScanAndClean("j", 0));
    s := Then(s, Deliver(1, "j", "n", "u"));
  }

  lemma Then(s: State, step: Step) returns (s': State)
    requires Reachable(true, s) && Enabled(s, step)
    ensures Reachable(true, s') && s' == Next(true, s, step)
  {
    ReachableStep(true, s, step);
    s' := Next(true, s, step);
  }
}
