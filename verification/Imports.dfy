/** What one import means: batches validated, upserted in a transaction each and counted, with the
    full, uncapped list of errors. `ImportsService` is proved against this. */
module Imports {
  import opened Wrappers
  import opened Upserts

  datatype Resource = Users | Articles | Comments

  datatype Database = Database(users: Table, articles: Table, comments: Comments)

  ghost predicate Sound(db: Database) {
    UniqueKeys(db.users) && UniqueKeys(db.articles)
  }

  /** What validation makes of one record. */
  datatype Checked = Good(id: Option<Id>, key: string, fields: Fields) | Wrong(errors: seq<FieldError>)

  datatype FieldError = FieldError(field: string, message: string)

  /** The parts of the surroundings an import depends on: how emails are lower-cased and how a
      record of type `D` is validated for the resource. */
  datatype Importer<!D> = Importer(resource: Resource, lower: string -> string, validate: D -> Checked)

  /** A batch's calls that may throw. `begin`: connecting and starting the transaction; `lookup`:
      the queries before the row loop; `release`: giving the connection back; `progress`: the
      progress update after the batch. */
  datatype BatchEnv = BatchEnv(begin: Option<string>, lookup: Option<string>, commit: Option<string>,
                               rollback: Option<string>, release: Option<string>, progress: Option<string>)

  /** The surroundings of a run: per line for rows, per batch number for batches. */
  datatype Env = Env(row: nat -> RowEnv, batch: nat -> BatchEnv)

  /** A raw record with its reported line. */
  datatype Raw<D> = Raw(data: D, line: nat)

  // ---------------------------------------------------------------------------------------
  // One transaction
  // ---------------------------------------------------------------------------------------

  /** The row loop of a resource over a database. */
  function RowLoop(lower: string -> string, resource: Resource, db: Database, recs: seq<Record>, row: nat -> RowEnv)
    : (r: Result<(Database, Tally)>)
    requires UniqueKeys(db.users) && UniqueKeys(db.articles)
  {
    match resource
    case Users =>
      (match FastFold(UserKind(lower), db.users, Acc(db.users, map[], ZERO), recs, row)
       case Returned(acc) => Returned((db.(users := acc.table), acc.tally))
       case Thrown(m) => Thrown(m))
    case Articles =>
      (match FastFold(ArticleKind(db.users.Keys), db.articles, Acc(db.articles, map[], ZERO), recs, row)
       case Returned(acc) => Returned((db.(articles := acc.table), acc.tally))
       case Thrown(m) => Thrown(m))
    case Comments =>
      (match CommentFold(db.articles.Keys, db.users.Keys, CommentAcc(db.comments, ZERO), recs, row)
       case Returned(acc) => Returned((db.(comments := acc.table), acc.tally))
       case Thrown(m) => Thrown(m))
  }

  function FailedMarks(recs: seq<Record>, message: string): (errors: seq<JobError>)
    ensures |errors| == |recs|
  {
    seq(|recs|, i requires 0 <= i < |recs| => JobError(recs[i].line, None, BatchFailed(message)))
  }

  /** A database afterwards, and what the call gave back. */
  datatype End<T> = End(db: Database, outcome: Result<T>)

  /** The catch block: roll back, then count every record as failed on top of what is counted. */
  function RolledBack(db: Database, tally: Tally, recs: seq<Record>, message: string, rollback: Option<string>)
    : (r: End<Tally>)
  {
    if rollback.Some? then End(db, Thrown(rollback.value))
    else End(db, Returned(tally.(failed := tally.failed + |recs|, errors := tally.errors + FailedMarks(recs, message))))
  }

  /** `upsertRecords`: one transaction, and the connection given back whatever happened. */
  function UpsertRecords(lower: string -> string, resource: Resource, db: Database, recs: seq<Record>,
                         row: nat -> RowEnv, env: BatchEnv): (r: End<Tally>)
    requires UniqueKeys(db.users) && UniqueKeys(db.articles)
  {
    if env.begin.Some? then End(db, Thrown(env.begin.value))
    else
      var end :=
        if env.lookup.Some? then RolledBack(db, ZERO, recs, env.lookup.value, env.rollback)
        else
          match RowLoop(lower, resource, db, recs, row)
          case Thrown(m) => RolledBack(db, ZERO, recs, m, env.rollback)
          case Returned(done) =>
            if env.commit.Some? then RolledBack(db, done.1, recs, env.commit.value, env.rollback)
            else End(done.0, Returned(done.1));
      if env.release.Some? then end.(outcome := Thrown(env.release.value)) else end
  }

  lemma RowLoopKeepsKeys(lower: string -> string, resource: Resource, db: Database, recs: seq<Record>,
                         row: nat -> RowEnv)
    requires Sound(db)
    ensures var r := RowLoop(lower, resource, db, recs, row); r.Returned? ==> Sound(r.value.0)
  {
    match resource
    case Users => KeysStayUnique(UserKind(lower), db.users, Acc(db.users, map[], ZERO), recs, row);
    case Articles => KeysStayUnique(ArticleKind(db.users.Keys), db.articles, Acc(db.articles, map[], ZERO), recs, row);
    case Comments =>
  }

  lemma UpsertRecordsKeepsKeys(lower: string -> string, resource: Resource, db: Database, recs: seq<Record>,
                               row: nat -> RowEnv, env: BatchEnv)
    requires Sound(db)
    ensures Sound(UpsertRecords(lower, resource, db, recs, row, env).db)
  {
    RowLoopKeepsKeys(lower, resource, db, recs, row);
  }

  /** How many rows of a resource's row loop are counted twice. */
  function LoopTwice(lower: string -> string, resource: Resource, db: Database, recs: seq<Record>, row: nat -> RowEnv)
    : (n: nat)
    requires UniqueKeys(db.users) && UniqueKeys(db.articles)
  {
    match resource
    case Users => Twice(UserKind(lower), db.users, Acc(db.users, map[], ZERO), recs, row)
    case Articles => Twice(ArticleKind(db.users.Keys), db.articles, Acc(db.articles, map[], ZERO), recs, row)
    case Comments => CommentTwice(db.articles.Keys, db.users.Keys, recs, row)
  }

  lemma RowLoopCounts(lower: string -> string, resource: Resource, db: Database, recs: seq<Record>, row: nat -> RowEnv)
    requires Sound(db)
    ensures var r := RowLoop(lower, resource, db, recs, row);
      r.Returned? ==> Counted(ZERO, r.value.1, |recs|, LoopTwice(lower, resource, db, recs, row))
    ensures LoopTwice(lower, resource, db, recs, row) <= ReleaseThrows(recs, row)
  {
    match resource
    case Users =>
      FastFoldCounts(UserKind(lower), db.users, Acc(db.users, map[], ZERO), recs, row);
      TwiceBounded(UserKind(lower), db.users, Acc(db.users, map[], ZERO), recs, row);
    case Articles =>
      FastFoldCounts(ArticleKind(db.users.Keys), db.articles, Acc(db.articles, map[], ZERO), recs, row);
      TwiceBounded(ArticleKind(db.users.Keys), db.articles, Acc(db.articles, map[], ZERO), recs, row);
    case Comments =>
      CommentFoldCounts(db.articles.Keys, db.users.Keys, CommentAcc(db.comments, ZERO), recs, row);
      CommentTwiceBounded(db.articles.Keys, db.users.Keys, recs, row);
  }

  /** The transaction got as far as its COMMIT. */
  predicate ReachesCommit(lower: string -> string, resource: Resource, db: Database, recs: seq<Record>,
                          row: nat -> RowEnv, env: BatchEnv)
    requires UniqueKeys(db.users) && UniqueKeys(db.articles)
  {
    env.lookup.None? && RowLoop(lower, resource, db, recs, row).Returned?
  }

  /** What a transaction counts beyond one outcome a record: the rows counted twice, and every row
      again when the COMMIT throws. */
  function Extra(lower: string -> string, resource: Resource, db: Database, recs: seq<Record>, row: nat -> RowEnv,
                 env: BatchEnv): (n: nat)
    requires UniqueKeys(db.users) && UniqueKeys(db.articles)
  {
    if !ReachesCommit(lower, resource, db, recs, row, env) then 0
    else LoopTwice(lower, resource, db, recs, row) + if env.commit.Some? then |recs| else 0
  }

  lemma ExtraBounded(lower: string -> string, resource: Resource, db: Database, recs: seq<Record>, row: nat -> RowEnv,
                     env: BatchEnv)
    requires Sound(db)
    ensures Extra(lower, resource, db, recs, row, env) <= 2 * |recs|
    ensures ReleaseThrows(recs, row) == 0 && env.commit.None? ==> Extra(lower, resource, db, recs, row, env) == 0
  {
    RowLoopCounts(lower, resource, db, recs, row);
  }

  /** Conservation under faults, exactly: what `upsertRecords` returns counts each record once, each row
      whose RELEASE throws after its save once more, and all of them again when the COMMIT throws. So
      the outcomes add up to the records if and only if the COMMIT was not reached, or no row was
      counted twice and it did not throw. There is one error per failure. */
  lemma UpsertRecordsCounts(lower: string -> string, resource: Resource, db: Database, recs: seq<Record>,
                            row: nat -> RowEnv, env: BatchEnv)
    requires Sound(db)
    ensures var r := UpsertRecords(lower, resource, db, recs, row, env).outcome;
      r.Returned? ==>
        var sum := r.value.successful + r.value.failed;
        && sum == |recs| + Extra(lower, resource, db, recs, row, env) <= 3 * |recs|
        && (sum == |recs| <==>
              !ReachesCommit(lower, resource, db, recs, row, env)
              || (LoopTwice(lower, resource, db, recs, row) == 0 && (env.commit.None? || recs == [])))
        && |r.value.errors| == r.value.failed
  {
    RowLoopCounts(lower, resource, db, recs, row);
    ExtraBounded(lower, resource, db, recs, row, env);
  }

  // ---------------------------------------------------------------------------------------
  // Double counting happens
  // ---------------------------------------------------------------------------------------

  /** Nothing but the COMMIT may throw around the rows. */
  predicate OnlyCommitMayThrow(env: BatchEnv) {
    env.begin.None? && env.lookup.None? && env.rollback.None? && env.release.None?
  }

  /** One new user whose RELEASE throws is counted as successful and as failed, and is not stored. */
  lemma ReleaseThrowCountsTwice(lower: string -> string, db: Database, rec: Record, message: string, uuid: Id,
                                env: BatchEnv)
    requires Sound(db) && !HasKey(db.users, rec.key) && OnlyCommitMayThrow(env) && env.commit.None?
    ensures var row: nat -> RowEnv := n => RowEnv(uuid, None, None, None, Some(message), None);
      UpsertRecords(lower, Users, db, [rec], row, env)
      == End(db, Returned(Tally(1, 1, [UserKind(lower).RowError(rec, message)])))
  {
    var row: nat -> RowEnv := n => RowEnv(uuid, None, None, None, Some(message), None);
    var kind, start := UserKind(lower), Acc(db.users, map[], ZERO);
    var next := Acc(db.users, map[kind.canon(rec.key) := rec.line], Tally(1, 1, [kind.RowError(rec, message)]));
    assert Save(db.users, NewId(rec, row(rec.line)), Row(rec.key, rec.fields)).Returned?;
    assert map[][kind.canon(rec.key) := rec.line] == next.seen;
    assert [] + [kind.RowError(rec, message)] == next.tally.errors;
    assert StepRow(kind, db.users, start, rec, row(rec.line)) == Returned(next);
    assert [rec][1..] == [];
    assert FastFold(kind, db.users, start, [rec], row) == FastFold(kind, db.users, next, [], row);
  }

  predicate AcceptedComment(db: Database, rec: Record) {
    AcceptedBy(db.articles.Keys, db.users.Keys, rec)
  }

  /** Comments that refer to stored users and articles, saved without a fault other than their RELEASE. */
  ghost predicate OnlyReleaseMayThrow(db: Database, recs: seq<Record>, row: nat -> RowEnv) {
    forall i :: 0 <= i < |recs| ==>
      var env := row(recs[i].line);
      && AcceptedComment(db, recs[i])
      && env.savepoint.None? && env.find.None? && env.save.None? && env.rollback.None?
  }

  lemma {:induction false} TwiceIsReleaseThrows(db: Database, acc: CommentAcc, recs: seq<Record>, row: nat -> RowEnv)
    requires OnlyReleaseMayThrow(db, recs, row)
    ensures CommentFold(db.articles.Keys, db.users.Keys, acc, recs, row).Returned?
    ensures CommentTwice(db.articles.Keys, db.users.Keys, recs, row) == ReleaseThrows(recs, row)
    decreases |recs|
  {
    if recs != [] {
      var articles, users := db.articles.Keys, db.users.Keys;
      assert AcceptedComment(db, recs[0]);
      assert forall i :: 0 <= i < |recs[1..]| ==> recs[1..][i] == recs[i + 1];
      TwiceIsReleaseThrows(db, StepComment(articles, users, acc, recs[0], row(recs[0].line)).value, recs[1..], row);
    }
  }

  /** A throwing COMMIT counts every record again, whatever their number: n comments end as 2n outcomes,
      and as 3n when every RELEASE throws too; the tables stay as they are. */
  lemma CommitThrowCountsAgain(lower: string -> string, db: Database, recs: seq<Record>, row: nat -> RowEnv,
                               env: BatchEnv)
    requires Sound(db) && OnlyReleaseMayThrow(db, recs, row) && OnlyCommitMayThrow(env) && env.commit.Some?
    ensures var end := UpsertRecords(lower, Comments, db, recs, row, env);
      && end.db == db && end.outcome.Returned?
      && end.outcome.value.successful + end.outcome.value.failed == 2 * |recs| + ReleaseThrows(recs, row)
    ensures (forall line :: row(line).release.Some?) ==> ReleaseThrows(recs, row) == |recs|
  {
    TwiceIsReleaseThrows(db, CommentAcc(db.comments, ZERO), recs, row);
    UpsertRecordsCounts(lower, Comments, db, recs, row, env);
    if forall line :: row(line).release.Some? {
      AllReleasesThrow(recs, row);
    }
  }

  lemma {:induction false} AllReleasesThrow(recs: seq<Record>, row: nat -> RowEnv)
    requires forall line :: row(line).release.Some?
    ensures ReleaseThrows(recs, row) == |recs|
  {
    if recs != [] {
      AllReleasesThrow(recs[1..], row);
    }
  }

  // ---------------------------------------------------------------------------------------
  // One batch
  // ---------------------------------------------------------------------------------------

  function ValidRecords<D>(imp: Importer<D>, raws: seq<Raw<D>>): (recs: seq<Record>)
    ensures |recs| <= |raws|
  {
    if raws == [] then []
    else
      (match imp.validate(raws[0].data)
       case Good(id, key, fields) => [Record(raws[0].line, id, key, fields)]
       case Wrong(_) => []) + ValidRecords(imp, raws[1..])
  }

  function FieldErrors(line: nat, errors: seq<FieldError>): (es: seq<JobError>)
    ensures |es| == |errors|
    ensures forall i :: 0 <= i < |errors| ==> es[i] == JobError(line, Some(errors[i].field), Invalid(errors[i].message))
  {
    seq(|errors|, i requires 0 <= i < |errors| => JobError(line, Some(errors[i].field), Invalid(errors[i].message)))
  }

  /** Every error of every invalid record, in record order. */
  function ValidationErrors<D>(imp: Importer<D>, raws: seq<Raw<D>>): (es: seq<JobError>) {
    if raws == [] then []
    else
      (match imp.validate(raws[0].data)
       case Good(_, _, _) => []
       case Wrong(errors) => FieldErrors(raws[0].line, errors)) + ValidationErrors(imp, raws[1..])
  }

  /** `processBatchWithLineNumbers` without any capping: validation errors, then upsert errors. */
  function ProcessBatch<D>(imp: Importer<D>, db: Database, raws: seq<Raw<D>>, row: nat -> RowEnv, env: BatchEnv)
    : (r: End<Tally>)
    requires UniqueKeys(db.users) && UniqueKeys(db.articles)
  {
    var recs := ValidRecords(imp, raws);
    var invalid := Tally(0, |raws| - |recs|, ValidationErrors(imp, raws));
    if recs == [] then End(db, Returned(invalid))
    else
      var end := UpsertRecords(imp.lower, imp.resource, db, recs, row, env);
      match end.outcome
      case Thrown(m) => End(end.db, Thrown(m))
      case Returned(t) =>
        End(end.db, Returned(Tally(t.successful, invalid.failed + t.failed, invalid.errors + t.errors)))
  }

  // ---------------------------------------------------------------------------------------
  // A whole file
  // ---------------------------------------------------------------------------------------

  /** One element of a batch: a record to process, an unparsable line, or a line whose value is
      falsy and is only counted. CSV and JSON files give records only. */
  datatype Entry<D> = Item(data: D, line: nat) | Broken(line: nat, message: string) | Ignored(line: nat)

  function RawsOf<D>(batch: seq<Entry<D>>): (raws: seq<Raw<D>>)
    ensures |raws| <= |batch|
  {
    if batch == [] then []
    else (if batch[0].Item? then [Raw(batch[0].data, batch[0].line)] else []) + RawsOf(batch[1..])
  }

  function BrokenErrors<D>(batch: seq<Entry<D>>): (es: seq<JobError>) {
    if batch == [] then []
    else (if batch[0].Broken? then [JobError(batch[0].line, None, Unparsable(batch[0].message))] else [])
         + BrokenErrors(batch[1..])
  }

  function IgnoredCount<D>(batch: seq<Entry<D>>): (n: nat) {
    if batch == [] then 0 else (if batch[0].Ignored? then 1 else 0) + IgnoredCount(batch[1..])
  }

  /** The five counters of a job, `skipped` being 0 throughout, with the full error list. */
  datatype Totals = Totals(total: nat, processed: nat, tally: Tally)

  const NOTHING := Totals(0, 0, ZERO)

  function AddBatch<D>(t: Totals, batch: seq<Entry<D>>, result: Tally): (r: Totals) {
    Totals(t.total + |batch|, t.processed + |RawsOf(batch)|,
           Tally(t.tally.successful + result.successful,
                 t.tally.failed + |BrokenErrors(batch)| + result.failed,
                 t.tally.errors + BrokenErrors(batch) + result.errors))
  }

  /** How often a loop reports progress: after every batch, or after every tenth. */
  datatype Pace = EveryBatch | EveryTenth {
    predicate Due(number: nat) {
      EveryTenth? ==> number % 10 == 0
    }
  }

  /** All batches in order, from batch `number` on; progress is reported at the
      given pace. A throw ends the run, leaving what earlier batches committed. */
  function RunBatches<D>(imp: Importer<D>, pace: Pace, db: Database, t: Totals, batches: seq<seq<Entry<D>>>,
                         number: nat, env: Env): (r: End<Totals>)
    requires UniqueKeys(db.users) && UniqueKeys(db.articles)
    decreases |batches|
  {
    if batches == [] then End(db, Returned(t))
    else
      var end := ProcessBatch(imp, db, RawsOf(batches[0]), env.row, env.batch(number));
      match end.outcome
      case Thrown(m) => End(end.db, Thrown(m))
      case Returned(result) =>
        if pace.Due(number) && env.batch(number).progress.Some?
        then End(end.db, Thrown(env.batch(number).progress.value))
        else
          (BatchKeepsKeys(imp, db, RawsOf(batches[0]), env.row, env.batch(number));
           RunBatches(imp, pace, end.db, AddBatch(t, batches[0], result), batches[1..], number + 1, env))
  }

  lemma BatchKeepsKeys<D>(imp: Importer<D>, db: Database, raws: seq<Raw<D>>, row: nat -> RowEnv, env: BatchEnv)
    requires Sound(db)
    ensures Sound(ProcessBatch(imp, db, raws, row, env).db)
  {
    UpsertRecordsKeepsKeys(imp.lower, imp.resource, db, ValidRecords(imp, raws), row, env);
  }

  /** One step of a run, from batch `number` on. */
  lemma RunHead<D>(imp: Importer<D>, pace: Pace, db: Database, t: Totals, batches: seq<seq<Entry<D>>>, number: nat,
                   env: Env)
    requires Sound(db) && batches != []
    ensures var end := ProcessBatch(imp, db, RawsOf(batches[0]), env.row, env.batch(number));
      && Sound(end.db)
      && RunBatches(imp, pace, db, t, batches, number, env)
         == match end.outcome
            case Thrown(m) => End(end.db, Thrown(m))
            case Returned(x) =>
              if pace.Due(number) && env.batch(number).progress.Some?
              then End(end.db, Thrown(env.batch(number).progress.value))
              else RunBatches(imp, pace, end.db, AddBatch(t, batches[0], x), batches[1..], number + 1, env)
  {
    BatchKeepsKeys(imp, db, RawsOf(batches[0]), env.row, env.batch(number));
  }

  // ---------------------------------------------------------------------------------------
  // Conservation over a file
  // ---------------------------------------------------------------------------------------

  ghost predicate NoReleaseOrCommitThrow(env: Env) {
    && (forall line :: env.row(line).release.None?)
    && (forall number :: env.batch(number).commit.None?)
  }

  lemma {:induction false} NoReleaseThrows(recs: seq<Record>, row: nat -> RowEnv)
    requires forall line :: row(line).release.None?
    ensures ReleaseThrows(recs, row) == 0
  {
    if recs != [] {
      NoReleaseThrows(recs[1..], row);
    }
  }

  /** What a batch counts beyond one outcome a raw record. */
  function BatchExtra<D>(imp: Importer<D>, db: Database, raws: seq<Raw<D>>, row: nat -> RowEnv, env: BatchEnv)
    : (n: nat)
    requires UniqueKeys(db.users) && UniqueKeys(db.articles)
  {
    var recs := ValidRecords(imp, raws);
    if recs == [] then 0 else Extra(imp.lower, imp.resource, db, recs, row, env)
  }

  /** A batch counts every raw record once, and again only what `BatchExtra` says: nothing when neither
      RELEASE nor COMMIT throws, and at most twice each. */
  lemma ProcessBatchCounts<D>(imp: Importer<D>, db: Database, raws: seq<Raw<D>>, env: Env, number: nat)
    requires Sound(db)
    ensures var r := ProcessBatch(imp, db, raws, env.row, env.batch(number)).outcome;
      var extra := BatchExtra(imp, db, raws, env.row, env.batch(number));
      && (r.Returned? ==> r.value.successful + r.value.failed == |raws| + extra)
      && extra <= 2 * |raws|
      && (NoReleaseOrCommitThrow(env) ==> extra == 0)
  {
    var recs := ValidRecords(imp, raws);
    UpsertRecordsCounts(imp.lower, imp.resource, db, recs, env.row, env.batch(number));
    ExtraBounded(imp.lower, imp.resource, db, recs, env.row, env.batch(number));
    if NoReleaseOrCommitThrow(env) {
      NoReleaseThrows(recs, env.row);
    }
  }

  lemma {:induction false} EntriesPartition<D>(batch: seq<Entry<D>>)
    ensures |RawsOf(batch)| + |BrokenErrors(batch)| + IgnoredCount(batch) == |batch|
  {
    if batch != [] {
      EntriesPartition(batch[1..]);
    }
  }

  function IgnoredIn<D>(batches: seq<seq<Entry<D>>>): (n: nat) {
    if batches == [] then 0 else IgnoredCount(batches[0]) + IgnoredIn(batches[1..])
  }

  function BrokenIn<D>(batches: seq<seq<Entry<D>>>): (n: nat) {
    if batches == [] then 0 else |BrokenErrors(batches[0])| + BrokenIn(batches[1..])
  }

  function SizeOf<D>(batches: seq<seq<Entry<D>>>): (n: nat) {
    if batches == [] then 0 else |batches[0]| + SizeOf(batches[1..])
  }

  /** What a run counts beyond one outcome an entry, batch by batch. */
  function RunExtra<D>(imp: Importer<D>, db: Database, batches: seq<seq<Entry<D>>>, number: nat, env: Env): (n: nat)
    requires UniqueKeys(db.users) && UniqueKeys(db.articles)
    decreases |batches|
  {
    if batches == [] then 0
    else
      var raws := RawsOf(batches[0]);
      BatchKeepsKeys(imp, db, raws, env.row, env.batch(number));
      var after := ProcessBatch(imp, db, raws, env.row, env.batch(number)).db;
      BatchExtra(imp, db, raws, env.row, env.batch(number)) + RunExtra(imp, after, batches[1..], number + 1, env)
  }

  /** Whole files: the entries that are neither processed nor broken are the ignored ones, and the
      outcomes add up to the rest and what throwing RELEASEs and COMMITs made count again, which is
      nothing when none throws. */
  lemma {:induction false} FileCounts<D>(imp: Importer<D>, pace: Pace, db: Database, t: Totals,
                                         batches: seq<seq<Entry<D>>>, number: nat, env: Env)
    requires Sound(db)
    ensures var r := RunBatches(imp, pace, db, t, batches, number, env).outcome;
      r.Returned? ==>
        var sum := r.value.tally.successful + r.value.tally.failed - t.tally.successful - t.tally.failed;
        var processed := r.value.processed - t.processed;
        && r.value.total - t.total == SizeOf(batches)
        && processed + BrokenIn(batches) + IgnoredIn(batches) == SizeOf(batches)
        && sum == processed + BrokenIn(batches) + RunExtra(imp, db, batches, number, env)
                <= 3 * processed + BrokenIn(batches)
        && (NoReleaseOrCommitThrow(env) ==> sum == SizeOf(batches) - IgnoredIn(batches))
    decreases |batches|
  {
    if batches != [] {
      var raws := RawsOf(batches[0]);
      EntriesPartition(batches[0]);
      ProcessBatchCounts(imp, db, raws, env, number);
      BatchKeepsKeys(imp, db, raws, env.row, env.batch(number));
      var end := ProcessBatch(imp, db, raws, env.row, env.batch(number));
      if end.outcome.Returned? {
        FileCounts(imp, pace, end.db, AddBatch(t, batches[0], end.outcome.value), batches[1..], number + 1, env);
      }
    }
  }

  lemma {:induction false} ItemsOnly<D>(batch: seq<Entry<D>>)
    requires forall i :: 0 <= i < |batch| ==> batch[i].Item?
    ensures BrokenErrors(batch) == [] && IgnoredCount(batch) == 0 && |RawsOf(batch)| == |batch|
    ensures forall i :: 0 <= i < |batch| ==> RawsOf(batch)[i] == Raw(batch[i].data, batch[i].line)
  {
    if batch != [] {
      ItemsOnly(batch[1..]);
    }
  }
}
