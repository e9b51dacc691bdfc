/** Import jobs run by any number of nodes: deliveries take the job's Redis lock, start, write
    batches, finalize and release; they crash, lose their lock and are delivered again; cleanup
    scans and cleanup writes come in between as separate steps. */
module JobProtocol {
  import opened Wrappers
  import opened ImportJobs
  import L = DistributedLock

  type DeliveryId = nat

  /** How far one call of `processImport` has come: before the lock, holding it, executing after a
      successful start, having caught an error of its own completion, and on its way out. */
  datatype Phase = Arrived | Locked | Executing | Failing | Leaving

  datatype Delivery = Delivery(job: JobId, node: string, token: string, phase: Phase)

  /** One entry of a history: what a delivery did for a job. */
  datatype Mark = Mark(job: JobId, delivery: DeliveryId)

  /** `used` and `tokens` are the deliveries and lock tokens there have been; `begun` and `writes`
      record every start and every batch written to the tables; `resets` counts cleanup resets to
      PENDING; `scanned` holds what cleanup has read but not yet written. */
  datatype State = State(
    redis: L.Server, jobs: Jobs, deliveries: map<DeliveryId, Delivery>, used: set<DeliveryId>, tokens: set<string>,
    scanned: seq<Found>, begun: seq<Mark>, writes: seq<Mark>, resets: multiset<JobId>)

  /** `ShutdownDel` is the second half of a shutdown's release by key: a plain `del`, sent after a `get`
      that may be out of date, so that it may come at any time and hit any holder. */
  datatype Step =
    | Elapse(ms: nat)
    | CreateJob(id: JobId)
    | Deliver(d: DeliveryId, job: JobId, node: string, token: string)
    | TakeLock(d: DeliveryId, ttl: L.Ttl, reply: L.Reply)
    | RenewLock(d: DeliveryId, ttl: L.Ttl, reply: L.Reply)
    | Start(d: DeliveryId, lockedAt: int, startedAt: int, reply: L.Reply)
    | WriteBatch(d: DeliveryId)
    | ReportProgress(d: DeliveryId, progress: Progress)
    | Finalize(d: DeliveryId, to: Status, at: int, report: Option<Report>, reply: L.Reply)
    | ReleaseLock(d: DeliveryId, reply: L.Reply)
    | ShutdownDel(job: JobId)
    | Crash(d: DeliveryId)
    | Scan(id: JobId)
    | Clean(k: nat, at: int)
    | ScanAndClean(id: JobId, at: int)

  /** A command reaches Redis or the database when it is answered, or applied though its reply is lost. */
  predicate Applied(reply: L.Reply) {
    reply.Answered? || reply.applied
  }

  predicate In(s: State, d: DeliveryId, phases: set<Phase>) {
    d in s.deliveries && s.deliveries[d].phase in phases
  }

  predicate Enabled(s: State, step: Step) {
    match step
    case Elapse(_) => true
    case CreateJob(id) => id !in s.jobs
    case Deliver(d, _, _, token) => d !in s.used && token !in s.tokens
    case TakeLock(d, _, _) => In(s, d, {Arrived})
    case RenewLock(d, _, _) => In(s, d, {Locked, Executing, Failing, Leaving})
    case Start(d, lockedAt, startedAt, _) => In(s, d, {Locked}) && lockedAt <= startedAt
    case WriteBatch(d) => In(s, d, {Executing})
    case ReportProgress(d, _) => In(s, d, {Executing})
    case Finalize(d, to, _, _, _) =>
      (to == Completed && In(s, d, {Executing})) || (to == Failed && In(s, d, {Executing, Failing}))
    case ReleaseLock(d, _) => In(s, d, {Leaving})
    case ShutdownDel(_) => true
    case Crash(d) => d in s.deliveries
    case Scan(id) => id in s.jobs && MayClean(s.jobs[id])
    case Clean(k, _) => k < |s.scanned|
    case ScanAndClean(id, _) => id in s.jobs && MayClean(s.jobs[id])
  }

  function Moved(s: State, d: DeliveryId, phase: Phase): (s': State)
    requires d in s.deliveries
  {
    s.(deliveries := s.deliveries[d := s.deliveries[d].(phase := phase)])
  }

  function Ended(s: State, d: DeliveryId): (s': State) {
    s.(deliveries := s.deliveries - {d})
  }

  function Redis(s: State, e: L.Event, reply: L.Reply): (s': State) {
    if Applied(reply) then s.(redis := L.Step(s.redis, e)) else s
  }

  /** The cleanup's unconditional update by id, from what its scan saw. */
  function CleanedState(s: State, found: Found, restart: bool, at: int): (s': State) {
    s.(jobs := WithCleanup(s.jobs, found, restart, at),
       resets := if found.id in s.jobs && CleanupTarget(found.row, restart) == Pending
                 then s.resets + multiset{found.id} else s.resets)
  }

  function Next(restart: bool, s: State, step: Step): (s': State)
    requires Enabled(s, step)
  {
    match step
    case Elapse(ms) => s.(redis := L.Step(s.redis, L.Advance(ms)))
    case CreateJob(id) => s.(jobs := s.jobs[id := NEW_JOB])
    case Deliver(d, job, node, token) =>
      s.(used := s.used + {d}, tokens := s.tokens + {token},
         deliveries := s.deliveries[d := Delivery(job, node, token, Arrived)])
    case TakeLock(d, ttl, reply) =>
      var w := s.deliveries[d];
      var set' := L.Acquire(LockKey(w.job), w.token, ttl);
      if reply.Answered? && L.Succeeds(s.redis, set') then Redis(Moved(s, d, Locked), set', reply)
      else Redis(Ended(s, d), set', reply)
    case RenewLock(d, ttl, reply) =>
      Redis(s, L.Extend(LockKey(s.deliveries[d].job), s.deliveries[d].token, ttl), reply)
    case Start(d, lockedAt, startedAt, reply) =>
      var w := s.deliveries[d];
      if w.job in s.jobs && s.jobs[w.job].status == Pending && Applied(reply) then
        Moved(s, d, if reply.Answered? then Executing else Leaving)
          .(jobs := WithStart(s.jobs, w.job, w.node, lockedAt, startedAt), begun := s.begun + [Mark(w.job, d)])
      else Moved(s, d, Leaving)
    case WriteBatch(d) => s.(writes := s.writes + [Mark(s.deliveries[d].job, d)])
    case ReportProgress(d, progress) =>
      s.(jobs := WithProgress(s.jobs, s.deliveries[d].job, progress))
    case Finalize(d, to, at, report, reply) =>
      var out := Moved(s, d, if to == Completed && reply.Failed? then Failing else Leaving);
      if Applied(reply) then out.(jobs := WithEnd(s.jobs, s.deliveries[d].job, to, at, report)) else out
    case ReleaseLock(d, reply) =>
      Redis(Ended(s, d), L.Release(LockKey(s.deliveries[d].job), s.deliveries[d].token), reply)
    case ShutdownDel(job) => s.(redis := s.redis.(store := s.redis.store - {LockKey(job)}))
    case Crash(d) => Ended(s, d)
    case Scan(id) => s.(scanned := s.scanned + [Found(id, s.jobs[id])])
    case Clean(k, at) =>
      CleanedState(s, s.scanned[k], restart, at).(scanned := s.scanned[..k] + s.scanned[k + 1..])
    case ScanAndClean(id, at) => CleanedState(s, Found(id, s.jobs[id]), restart, at)
  }

  const START := State(L.Server(0, map[]), map[], map[], {}, {}, [], [], [], multiset{})

  /** The states of a run: `Some` while every step taken was enabled. */
  function Run(restart: bool, s: State, steps: seq<Step>): (end: Option<State>)
    decreases |steps|
  {
    if steps == [] then Some(s)
    else if Enabled(s, steps[0]) then Run(restart, Next(restart, s, steps[0]), steps[1..])
    else None
  }

  // ---------------------------------------------------------------------------------------
  // The invariant
  // ---------------------------------------------------------------------------------------

  /** How often a job was started. */
  function Starts(begun: seq<Mark>, job: JobId): (n: nat) {
    if begun == [] then 0
    else Starts(begun[..|begun| - 1], job) + if begun[|begun| - 1].job == job then 1 else 0
  }

  function Pends(s: State, job: JobId): nat {
    if job in s.jobs && s.jobs[job].status == Pending then 1 else 0
  }

  ghost predicate Invariant(restart: bool, s: State) {
    && (forall id :: id in s.jobs ==> Consistent(s.jobs[id]))
    && (forall k :: 0 <= k < |s.scanned| ==>
          Consistent(s.scanned[k].row) && s.scanned[k].row.status == Processing && s.scanned[k].id in s.jobs)
    && (forall id :: Starts(s.begun, id) + Pends(s, id)
                  <= (if id in s.jobs then 1 else 0) + s.resets[id])
    && (!restart ==> s.resets == multiset{})
    && (forall d :: In(s, d, {Executing, Failing}) ==> Mark(s.deliveries[d].job, d) in s.begun)
    && (forall i :: 0 <= i < |s.writes| ==> s.writes[i] in s.begun)
  }

  lemma StepKeepsInvariant(restart: bool, s: State, step: Step)
    requires Invariant(restart, s) && Enabled(s, step)
    ensures Invariant(restart, Next(restart, s, step))
  {
    if Quiet(step) {
      QuietStepKeepsInvariant(restart, s, step);
    } else if step.Start? {
      StartKeepsInvariant(restart, s, step);
    } else if step.Clean? || step.ScanAndClean? {
      CleanKeepsInvariant(restart, s, step);
    } else {
      RowStepKeepsInvariant(restart, s, step);
    }
  }

  /** Steps that touch no job row. */
  predicate Quiet(step: Step) {
    !step.Start? && !step.CreateJob? && !step.ReportProgress? && !step.Finalize? && !step.Clean? && !step.ScanAndClean?
  }

  /** They leave rows, starts and resets alone and put no delivery into execution. */
  lemma QuietFrame(restart: bool, s: State, step: Step)
    requires Enabled(s, step) && Quiet(step)
    ensures var s' := Next(restart, s, step);
      && s'.jobs == s.jobs && s'.begun == s.begun && s'.resets == s.resets
      && s'.scanned == (if step.Scan? then s.scanned + [Found(step.id, s.jobs[step.id])] else s.scanned)
      && s'.writes == (if step.WriteBatch? then s.writes + [Mark(s.deliveries[step.d].job, step.d)] else s.writes)
      && (forall d :: In(s', d, {Executing, Failing}) ==>
            In(s, d, {Executing, Failing}) && s'.deliveries[d].job == s.deliveries[d].job)
  {
  }

  lemma QuietStepKeepsInvariant(restart: bool, s: State, step: Step)
    requires Invariant(restart, s) && Enabled(s, step) && Quiet(step)
    ensures Invariant(restart, Next(restart, s, step))
  {
    var s' := Next(restart, s, step);
    QuietFrame(restart, s, step);
    assert forall id :: Pends(s', id) == Pends(s, id);
    if step.WriteBatch? {
      assert In(s, step.d, {Executing, Failing});
    }
  }

  lemma StartKeepsInvariant(restart: bool, s: State, step: Step)
    requires Invariant(restart, s) && Enabled(s, step) && step.Start?
    ensures Invariant(restart, Next(restart, s, step))
  {
    var s' := Next(restart, s, step);
    var job := s.deliveries[step.d].job;
    if s'.begun == s.begun {
      assert s'.jobs == s.jobs;
      assert forall id :: Pends(s', id) == Pends(s, id);
    } else {
      StartedBegins(s, s', job, step.d);
    }
  }

  /** A start uses up the job's pending state. */
  lemma StartedBegins(s: State, s': State, job: JobId, d: DeliveryId)
    requires s'.begun == s.begun + [Mark(job, d)]
    requires job in s.jobs && job in s'.jobs && s.jobs[job].status == Pending && s'.jobs[job].status == Processing
    requires s'.jobs == s.jobs[job := s'.jobs[job]]
    ensures forall id :: Starts(s'.begun, id) + Pends(s', id) == Starts(s.begun, id) + Pends(s, id)
    ensures forall mark :: mark in s.begun || mark == Mark(job, d) ==> mark in s'.begun
  {
    assert s'.begun[..|s.begun|] == s.begun && s'.begun[|s.begun|] == Mark(job, d);
  }

  lemma RowStepKeepsInvariant(restart: bool, s: State, step: Step)
    requires Invariant(restart, s) && Enabled(s, step)
    requires step.CreateJob? || step.ReportProgress? || step.Finalize?
    ensures Invariant(restart, Next(restart, s, step))
  {
    var s' := Next(restart, s, step);
    var id := if step.CreateJob? then step.id else s.deliveries[step.d].job;
    RowsKeepInvariant(restart, s, s', id);
  }

  /** One row changes consistently, is pending afterwards only if it was or is new, and no delivery
      is put into execution. */
  lemma RowsKeepInvariant(restart: bool, s: State, s': State, id: JobId)
    requires Invariant(restart, s)
    requires s'.scanned == s.scanned && s'.begun == s.begun && s'.writes == s.writes && s'.resets == s.resets
    requires s'.jobs == s.jobs || (id in s'.jobs && s'.jobs == s.jobs[id := s'.jobs[id]] && Consistent(s'.jobs[id]))
    requires id in s.jobs ==> Pends(s', id) <= Pends(s, id)
    requires forall d :: In(s', d, {Executing, Failing}) ==>
               In(s, d, {Executing, Failing}) && s'.deliveries[d].job == s.deliveries[d].job
    ensures Invariant(restart, s')
  {
    assert forall other :: other != id ==> Pends(s', other) == Pends(s, other);
  }

  lemma CleanKeepsInvariant(restart: bool, s: State, step: Step)
    requires Invariant(restart, s) && Enabled(s, step) && (step.Clean? || step.ScanAndClean?)
    ensures Invariant(restart, Next(restart, s, step))
  {
    if step.Clean? {
      CleanedKeepsInvariant(restart, s, s.scanned[step.k], step.at);
      ScanDropped(restart, CleanedState(s, s.scanned[step.k], restart, step.at), step.k);
    } else {
      CleanedKeepsInvariant(restart, s, Found(step.id, s.jobs[step.id]), step.at);
    }
  }

  lemma ScanDropped(restart: bool, s: State, k: nat)
    requires Invariant(restart, s) && k < |s.scanned|
    ensures Invariant(restart, s.(scanned := s.scanned[..k] + s.scanned[k + 1..]))
  {
    var s' := s.(scanned := s.scanned[..k] + s.scanned[k + 1..]);
    assert forall i :: 0 <= i < |s'.scanned| ==> s'.scanned[i] == s.scanned[if i < k then i else i + 1];
    assert forall id :: Pends(s', id) == Pends(s, id);
  }

  lemma CleanedKeepsInvariant(restart: bool, s: State, found: Found, at: int)
    requires Invariant(restart, s) && found.id in s.jobs && found.row.status == Processing
    ensures Invariant(restart, CleanedState(s, found, restart, at))
  {
    if restart {
      ResetKeepsInvariant(s, found, at);
    } else {
      RowsKeepInvariant(false, s, CleanedState(s, found, false, at), found.id);
    }
  }

  /** A reset makes the job pending once more, and is counted. */
  lemma ResetKeepsInvariant(s: State, found: Found, at: int)
    requires Invariant(true, s) && found.id in s.jobs && found.row.status == Processing
    ensures Invariant(true, CleanedState(s, found, true, at))
  {
    var s' := CleanedState(s, found, true, at);
    assert s'.jobs == s.jobs[found.id := s'.jobs[found.id]] && s'.begun == s.begun;
    assert s'.resets == s.resets + multiset{found.id};
    assert forall id :: id != found.id ==> Pends(s', id) == Pends(s, id);
  }

  lemma {:induction false} RunKeepsInvariant(restart: bool, s: State, steps: seq<Step>)
    requires Invariant(restart, s) && Run(restart, s, steps).Some?
    ensures Invariant(restart, Run(restart, s, steps).value)
    decreases |steps|
  {
    if steps != [] {
      StepKeepsInvariant(restart, s, steps[0]);
      RunKeepsInvariant(restart, Next(restart, s, steps[0]), steps[1..]);
    }
  }

  // ---------------------------------------------------------------------------------------
  // What holds in every reachable state
  // ---------------------------------------------------------------------------------------

  ghost predicate Reachable(restart: bool, s: State) {
    exists steps :: Run(restart, START, steps) == Some(s)
  }

  lemma ReachableInvariant(restart: bool, s: State)
    requires Reachable(restart, s)
    ensures Invariant(restart, s)
  {
    var steps :| Run(restart, START, steps) == Some(s);
    RunKeepsInvariant(restart, START, steps);
  }

  /** The lock columns are set exactly while a job is processing. */
  lemma LockedExactlyWhileProcessing(restart: bool, s: State, id: JobId)
    requires Reachable(restart, s) && id in s.jobs
    ensures s.jobs[id].lockedBy.Some? <==> s.jobs[id].status == Processing
    ensures s.jobs[id].lockedAt.Some? <==> s.jobs[id].status == Processing
    ensures s.jobs[id].status == Processing ==>
              s.jobs[id].startedAt.Some? && s.jobs[id].lockedAt.value <= s.jobs[id].startedAt.value
  {
    ReachableInvariant(restart, s);
  }

  /** A job enters PROCESSING at most once more than cleanup has reset it, so at most once when
      cleanup never restarts jobs. */
  lemma StartsBounded(restart: bool, s: State, id: JobId)
    requires Reachable(restart, s)
    ensures Starts(s.begun, id) <= 1 + s.resets[id]
    ensures !restart ==> Starts(s.begun, id) <= 1
  {
    ReachableInvariant(restart, s);
  }

  lemma {:induction false} StartedCounts(begun: seq<Mark>, i: nat, j: nat)
    requires i < j < |begun| && begun[i].job == begun[j].job
    ensures Starts(begun, begun[i].job) >= 2
    decreases |begun|
  {
    var front := begun[..|begun| - 1];
    if j < |begun| - 1 {
      StartedCounts(front, i, j);
    } else {
      StartedOnce(front, i);
    }
  }

  lemma {:induction false} StartedOnce(begun: seq<Mark>, i: nat)
    requires i < |begun|
    ensures Starts(begun, begun[i].job) >= 1
    decreases |begun|
  {
    if i < |begun| - 1 {
      StartedOnce(begun[..|begun| - 1], i);
    }
  }

  /** Without restarts every batch written for a job was written by one and the same delivery. */
  lemma OneWriterPerJob(s: State, i: nat, j: nat)
    requires Reachable(false, s)
    requires i < |s.writes| && j < |s.writes| && s.writes[i].job == s.writes[j].job
    ensures s.writes[i].delivery == s.writes[j].delivery
  {
    ReachableInvariant(false, s);
    var a :| 0 <= a < |s.begun| && s.begun[a] == s.writes[i];
    var b :| 0 <= b < |s.begun| && s.begun[b] == s.writes[j];
    if a != b {
      StartedCounts(s.begun, if a < b then a else b, if a < b then b else a);
    }
  }

  /** The delivery a step belongs to. */
  function Actor(step: Step): (d: Option<DeliveryId>) {
    match step
    case TakeLock(d, _, _) => Some(d)
    case RenewLock(d, _, _) => Some(d)
    case Start(d, _, _, _) => Some(d)
    case WriteBatch(d) => Some(d)
    case ReportProgress(d, _) => Some(d)
    case Finalize(d, _, _, _, _) => Some(d)
    case ReleaseLock(d, _) => Some(d)
    case Crash(d) => Some(d)
    case _ => None
  }

  /** Without restarts, once a delivery has started a job, no step of any other delivery of that job
      changes a job row or the tables: it never gets to execute. */
  lemma LaterDeliveryIsInert(s: State, step: Step, first: DeliveryId, other: DeliveryId)
    requires Reachable(false, s) && Enabled(s, step)
    requires Actor(step) == Some(other) && other in s.deliveries && other != first
    requires Mark(s.deliveries[other].job, first) in s.begun
    ensures !In(s, other, {Executing, Failing})
    ensures Next(false, s, step).jobs == s.jobs
    ensures Next(false, s, step).writes == s.writes && Next(false, s, step).begun == s.begun
  {
    ReachableInvariant(false, s);
    var job := s.deliveries[other].job;
    var a :| 0 <= a < |s.begun| && s.begun[a] == Mark(job, first);
    StartedOnce(s.begun, a);
    if In(s, other, {Executing, Failing}) {
      var b :| 0 <= b < |s.begun| && s.begun[b] == Mark(job, other);
      StartedCounts(s.begun, if a < b then a else b, if a < b then b else a);
      assert false;
    }
  }

  lemma {:induction false} RunAppend(restart: bool, s: State, a: seq<Step>, b: seq<Step>)
    ensures Run(restart, s, a + b)
         == if Run(restart, s, a).Some? then Run(restart, Run(restart, s, a).value, b) else None
    decreases |a|
  {
    if a == [] {
      assert a + b == b;
    } else {
      assert (a + b)[0] == a[0] && (a + b)[1..] == a[1..] + b;
      if Enabled(s, a[0]) {
        RunAppend(restart, Next(restart, s, a[0]), a[1..], b);
      }
    }
  }

  lemma ReachableExtends(restart: bool, s: State, steps: seq<Step>)
    requires Reachable(restart, s) && Run(restart, s, steps).Some?
    ensures Reachable(restart, Run(restart, s, steps).value)
  {
    var before :| Run(restart, START, before) == Some(s);
    RunAppend(restart, START, before, steps);
  }

  /** The run form: whatever happens after a job's start, every batch added for that job to the
      tables from then on is the starting delivery's own. */
  lemma AllLaterWritesAreTheFirsts(s: State, steps: seq<Step>, job: JobId, first: DeliveryId, i: nat)
    requires Reachable(false, s) && Mark(job, first) in s.begun
    requires Run(false, s, steps).Some?
    requires i < |Run(false, s, steps).value.writes| && Run(false, s, steps).value.writes[i].job == job
    ensures Run(false, s, steps).value.writes[i].delivery == first
  {
    var end := Run(false, s, steps).value;
    ReachableExtends(false, s, steps);
    ReachableInvariant(false, end);
    HistoryGrows(false, s, steps);
    var a :| 0 <= a < |s.begun| && s.begun[a] == Mark(job, first);
    var b :| 0 <= b < |end.begun| && end.begun[b] == end.writes[i];
    assert end.begun[a] == s.begun[a];
    if a != b {
      StartedCounts(end.begun, if a < b then a else b, if a < b then b else a);
    }
  }

  lemma {:induction false} HistoryGrows(restart: bool, s: State, steps: seq<Step>)
    requires Run(restart, s, steps).Some?
    ensures s.begun <= Run(restart, s, steps).value.begun
    ensures s.jobs.Keys <= Run(restart, s, steps).value.jobs.Keys
    decreases |steps|
  {
    if steps != [] {
      HistoryGrows(restart, Next(restart, s, steps[0]), steps[1..]);
    }
  }

  // ---------------------------------------------------------------------------------------
  // Terminal states
  // ---------------------------------------------------------------------------------------

  /** Guarded changes leave a completed or failed job's status alone. */
  lemma GuardedKeepsTerminal(restart: bool, s: State, step: Step, id: JobId)
    requires Enabled(s, step) && id in s.jobs && Terminal(s.jobs[id])
    requires step.CreateJob? || step.Start? || step.ReportProgress? || step.Finalize?
    ensures id in Next(restart, s, step).jobs && Next(restart, s, step).jobs[id].status == s.jobs[id].status
  {
  }

  lemma ScanAndCleanKeepsTerminal(restart: bool, s: State, step: Step, id: JobId)
    requires Invariant(restart, s) && Enabled(s, step) && id in s.jobs && Terminal(s.jobs[id]) && step.ScanAndClean?
    ensures id in Next(restart, s, step).jobs && Next(restart, s, step).jobs[id] == s.jobs[id]
  {
  }

  lemma LateCleanMoves(restart: bool, s: State, step: Step, id: JobId)
    requires Invariant(restart, s) && Enabled(s, step) && id in s.jobs && step.Clean?
    ensures var found := s.scanned[step.k];
      && id in Next(restart, s, step).jobs && found.row.status == Processing
      && Next(restart, s, step).jobs[id].status
         == if found.id == id then CleanupTarget(found.row, restart) else s.jobs[id].status
  {
  }

  /** The one step that moves a completed or failed job: a cleanup write whose scan saw the job
      while it was still processing, sending it to another status than it has. */
  lemma OnlyLateCleanupMovesTerminal(restart: bool, s: State, step: Step, id: JobId)
    requires Reachable(restart, s) && Enabled(s, step)
    requires id in s.jobs && Terminal(s.jobs[id])
    ensures id in Next(restart, s, step).jobs
    ensures Next(restart, s, step).jobs[id].status != s.jobs[id].status
       <==> step.Clean? && s.scanned[step.k].id == id
            && CleanupTarget(s.scanned[step.k].row, restart) != s.jobs[id].status
    ensures step.Clean? ==> s.scanned[step.k].row.status == Processing
  {
    ReachableInvariant(restart, s);
    if Quiet(step) {
      QuietFrame(restart, s, step);
    } else if step.Clean? {
      LateCleanMoves(restart, s, step, id);
    } else if step.ScanAndClean? {
      ScanAndCleanKeepsTerminal(restart, s, step, id);
    } else {
      GuardedKeepsTerminal(restart, s, step, id);
    }
  }

  /** When every cleanup scans and writes in one step, terminal states are absorbing over any run. */
  lemma {:induction false} TerminalIsAbsorbing(restart: bool, s: State, steps: seq<Step>, id: JobId)
    requires Reachable(restart, s) && Run(restart, s, steps).Some?
    requires forall i :: 0 <= i < |steps| ==> !steps[i].Clean?
    requires id in s.jobs && Terminal(s.jobs[id])
    ensures id in Run(restart, s, steps).value.jobs
    ensures Run(restart, s, steps).value.jobs[id].status == s.jobs[id].status
    decreases |steps|
  {
    if steps != [] {
      var s' := Next(restart, s, steps[0]);
      OnlyLateCleanupMovesTerminal(restart, s, steps[0], id);
      ReachableStep(restart, s, steps[0]);
      TerminalIsAbsorbing(restart, s', steps[1..], id);
    }
  }

  /** With a separate write they are not: a job that completed between scan and write ends FAILED,
      or PENDING again where cleanup restarts jobs. */
  lemma SplitCleanupOverwritesCompleted(restart: bool) returns (s: State, id: JobId)
    ensures Reachable(restart, s) && id in s.jobs && s.jobs[id].status == Completed
    ensures |s.scanned| == 1 && s.scanned[0].id == id
    ensures Next(restart, s, Clean(0, 0)).jobs[id].status == if restart then Pending else Failed
  {
    id := "j";
    s := ScannedJob(restart);
    ReachableStep(restart, s, Finalize(0, Completed, 1, None, L.Answered));
    s := Next(restart, s, Finalize(0, Completed, 1, None, L.Answered));
  }

  lemma ScannedJob(restart: bool) returns (s: State)
    ensures Reachable(restart, s) && In(s, 0, {Executing}) && s.deliveries[0].job == "j"
    ensures s.jobs == map["j" := Started(NEW_JOB, "n", 0, 0)] && s.scanned == [Found("j", s.jobs["j"])]
  {
    s := RunningJob(restart);
    ReachableStep(restart, s, Scan("j"));
    s := Next(restart, s, Scan("j"));
  }

  /** A first delivery takes the lock of a new job and starts it. */
  lemma RunningJob(restart: bool) returns (s: State)
    ensures Reachable(restart, s)
    ensures s.jobs == map["j" := Started(NEW_JOB, "n", 0, 0)] && s.scanned == []
    ensures s.deliveries == map[0 := Delivery("j", "n", "t", Executing)] && s.used == {0} && s.tokens == {"t"}
    ensures s.redis == L.Server(0, map[LockKey("j") := L.Entry("t", 300000)])
  {
    s := DeliveredJob(restart);
    ReachableStep(restart, s, TakeLock(0, 300000, L.Answered));
    s := Next(restart, s, TakeLock(0, 300000, L.Answered));
    ReachableStep(restart, s, Start(0, 0, 0, L.Answered));
    s := Next(restart, s, Start(0, 0, 0, L.Answered));
  }

  lemma DeliveredJob(restart: bool) returns (s: State)
    ensures Reachable(restart, s) && s.redis == START.redis
    ensures s.jobs == map["j" := NEW_JOB] && s.scanned == []
    ensures s.deliveries == map[0 := Delivery("j", "n", "t", Arrived)] && s.used == {0} && s.tokens == {"t"}
  {
    s := START;
    assert Run(restart, START, []) == Some(START);
    ReachableStep(restart, s, CreateJob("j"));
    s := Next(restart, s, CreateJob("j"));
    ReachableStep(restart, s, Deliver(0, "j", "n", "t"));
    s := Next(restart, s, Deliver(0, "j", "n", "t"));
  }

  lemma ReachableStep(restart: bool, s: State, step: Step)
    requires Reachable(restart, s) && Enabled(s, step)
    ensures Reachable(restart, Next(restart, s, step))
  {
    assert Run(restart, s, [step]) == Some(Next(restart, s, step)) by { assert [step][1..] == []; }
    ReachableExtends(restart, s, [step]);
  }
}
