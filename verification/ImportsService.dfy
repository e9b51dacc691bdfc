/** `imports.service.ts` as it runs: loops over mutable counters and capped error lists, lookup and
    seen maps, savepoints and transactions, proved against `Imports` and `Upserts`. */
module ImportsService {
  import opened Wrappers
  import opened Upserts
  import opened Imports
  import opened StreamUtils

  /** Maximum errors to store in a job record. */
  const MAX_ERRORS := 100

  /** The ids of the rows holding any of the given keys: the lookup made before a row loop. */
  function FindIds(t: Table, keys: seq<string>): (ids: map<string, Id>)
    requires UniqueKeys(t)
  {
    map key | key in keys && HasKey(t, key) :: IdOf(t, key)
  }

  /** The author ids named by the records that are stored users. */
  function KnownAuthors(recs: seq<Record>, users: set<Id>): (ids: set<Id>)
    ensures forall i :: 0 <= i < |recs| && AuthorOf(recs[i].fields).Some? ==>
              (AuthorOf(recs[i].fields).value in ids <==> AuthorOf(recs[i].fields).value in users)
  {
    set rec | rec in recs && AuthorOf(rec.fields).Some? && AuthorOf(rec.fields).value in users
            :: AuthorOf(rec.fields).value
  }

  /** What the loops find in their lookup map is the target of the fast form. */
  lemma LookedUp(t: Table, recs: seq<Record>, i: nat, env: RowEnv)
    requires UniqueKeys(t) && i < |recs|
    ensures var ids := FindIds(t, Keys(recs));
            (if recs[i].key in ids then ids[recs[i].key] else NewId(recs[i], env)) == Target(t, recs[i], env)
  {
    assert recs[i].key == Keys(recs)[i];
  }

  lemma KnownIsAccepted(recs: seq<Record>, users: set<Id>, i: nat)
    requires i < |recs|
    ensures var author := AuthorOf(recs[i].fields);
      ArticleKind(users).Accepts(recs[i]) <==> author.None? || author.value in KnownAuthors(recs, users)
  {
  }

  function Keys(recs: seq<Record>): (keys: seq<string>)
    ensures |keys| == |recs|
    ensures forall i :: 0 <= i < |recs| ==> keys[i] == recs[i].key
  {
    seq(|recs|, i requires 0 <= i < |recs| => recs[i].key)
  }

  /** The counters a loop returns: the full list of errors is known only up to the cap. */
  datatype Counts = Counts(total: nat, processed: nat, successful: nat, failed: nat, skipped: nat,
                           errors: seq<JobError>)

  /** Counters equal and errors cut at the cap. */
  ghost predicate CapsTotals(c: Counts, t: Totals) {
    c.total == t.total && Tracks(c, t)
  }

  class ImportsService {
    var db: Database
    const batchSize: nat

    ghost predicate Valid()
      reads this
    {
      batchSize >= 1 && Sound(db)
    }

    constructor (db: Database, batchSize: nat)
      requires batchSize >= 1 && Sound(db)
      ensures Valid() && this.db == db && this.batchSize == batchSize
    {
      this.db := db;
      this.batchSize := batchSize;
    }

    // -------------------------------------------------------------------------------------
    // Row loops
    // -------------------------------------------------------------------------------------

    /** One row's savepoint block over the table it saves to: the try block up to its first throw,
        and the catch block, which puts the table back. */
    method TryRow(kind: Kind, t: Table, rec: Record, id: Id, env: RowEnv, before: Tally,
                  ghost seen: map<string, nat>)
      returns (after: Result<Tally>, t': Table)
      ensures var end := UnderSavepoint(None, Save(t, id, Row(rec.key, rec.fields)), env);
        match Settle(kind, Acc(t, seen, before), rec, end)
        case Returned(acc) => after == Returned(acc.tally) && acc == Acc(t', seen, acc.tally)
        case Thrown(m) => after == Thrown(m)
    {
      var tally := before;
      t' := t;
      var thrown := env.savepoint;
      if thrown.None? {
        thrown := env.save;
      }
      if thrown.None? {
        match Save(t', id, Row(rec.key, rec.fields))
        case Thrown(m) => thrown := Some(m);
        case Returned(saved) =>
          t' := saved;
          tally := tally.(successful := tally.successful + 1);
          thrown := env.release;
      }
      if thrown.None? {
        return Returned(tally), t';
      }
      if env.rollback.Some? {
        return Thrown(env.rollback.value), t';
      }
      t' := t;
      var error := kind.RowError(rec, thrown.value);
      return Returned(tally.(failed := tally.failed + 1, errors := tally.errors + [error])), t';
    }

    /** `upsertUsers`: exactly the fast form; on an escaping throw the transaction is lost anyway. */
    method UpsertUsers(recs: seq<Record>, lower: string -> string, row: nat -> RowEnv) returns (r: Result<Tally>)
      requires Sound(db)
      modifies this`db
      ensures var fold := FastFold(UserKind(lower), old(db.users), Acc(old(db.users), map[], ZERO), recs, row);
        match fold
        case Returned(acc) => r == Returned(acc.tally) && db == old(db).(users := acc.table)
        case Thrown(m) => r == Thrown(m)
    {
      var kind := UserKind(lower);
      ghost var view := db.users;
      ghost var start := Acc(view, map[], ZERO);
      var errors: seq<JobError> := [];
      var successful: nat, failed: nat := 0, 0;
      var seenEmailsInBatch: map<string, nat> := map[];
      var emailToUser := FindIds(db.users, Keys(recs));
      for i := 0 to |recs|
        invariant db == old(db).(users := db.users)
        invariant FastFold(kind, view, Acc(db.users, seenEmailsInBatch, Tally(successful, failed, errors)),
            recs[i..], row)
               == FastFold(kind, view, start, recs, row)
      {
        var rec := recs[i];
        var env := row(rec.line);
        ghost var acc := Acc(db.users, seenEmailsInBatch, Tally(successful, failed, errors));
        ghost var step := StepRow(kind, view, acc, rec, env);
        FastFoldFrom(kind, view, acc, recs, i, row);
        var emailLower := lower(rec.key);
        if emailLower in seenEmailsInBatch {
          RepeatStep(kind, view, acc, rec, env);
          failed := failed + 1;
          errors := errors + [kind.RepeatError(rec, seenEmailsInBatch[emailLower])];
          assert step == Returned(Acc(db.users, seenEmailsInBatch, Tally(successful, failed, errors)));
          continue;
        }
        seenEmailsInBatch := seenEmailsInBatch[emailLower := rec.line];
        LookedUp(view, recs, i, env);
        var id := if rec.key in emailToUser then emailToUser[rec.key] else NewId(rec, env);
        TriedStep(kind, view, acc, rec, env);
        var tally, users :- TryRow(kind, db.users, rec, id, env, Tally(successful, failed, errors),
            seenEmailsInBatch);
        db := db.(users := users);
        successful, failed, errors := tally.successful, tally.failed, tally.errors;
        assert step == Returned(Acc(db.users, seenEmailsInBatch, Tally(successful, failed, errors)));
      }
      return Returned(Tally(successful, failed, errors));
    }

    /** `upsertArticles`: the same with authors looked up once, and a missing one refused before the
        savepoint. */
    method UpsertArticles(recs: seq<Record>, row: nat -> RowEnv) returns (r: Result<Tally>)
      requires Sound(db)
      modifies this`db
      ensures var kind := ArticleKind(old(db.users).Keys);
        var fold := FastFold(kind, old(db.articles), Acc(old(db.articles), map[], ZERO), recs, row);
        match fold
        case Returned(acc) => r == Returned(acc.tally) && db == old(db).(articles := acc.table)
        case Thrown(m) => r == Thrown(m)
    {
      var kind := ArticleKind(db.users.Keys);
      ghost var view := db.articles;
      ghost var start := Acc(view, map[], ZERO);
      var errors: seq<JobError> := [];
      var successful: nat, failed: nat := 0, 0;
      var seenSlugsInBatch: map<string, nat> := map[];
      var slugToArticle := FindIds(db.articles, Keys(recs));
      ghost var users := db.users.Keys;
      var validAuthorIds := KnownAuthors(recs, db.users.Keys);
      for i := 0 to |recs|
        invariant db == old(db).(articles := db.articles)
        invariant FastFold(kind, view, Acc(db.articles, seenSlugsInBatch, Tally(successful, failed, errors)),
            recs[i..], row)
               == FastFold(kind, view, start, recs, row)
      {
        var rec := recs[i];
        var env := row(rec.line);
        ghost var acc := Acc(db.articles, seenSlugsInBatch, Tally(successful, failed, errors));
        ghost var step := StepRow(kind, view, acc, rec, env);
        FastFoldFrom(kind, view, acc, recs, i, row);
        if rec.key in seenSlugsInBatch {
          RepeatStep(kind, view, acc, rec, env);
          failed := failed + 1;
          errors := errors + [kind.RepeatError(rec, seenSlugsInBatch[rec.key])];
          assert step == Returned(Acc(db.articles, seenSlugsInBatch, Tally(successful, failed, errors)));
          continue;
        }
        seenSlugsInBatch := seenSlugsInBatch[rec.key := rec.line];
        var author := AuthorOf(rec.fields);
        KnownIsAccepted(recs, users, i);
        if author.Some? && author.value !in validAuthorIds {
          RefusedStep(kind, view, acc, rec, env);
          failed := failed + 1;
          errors := errors + [kind.ReferenceError(rec)];
          assert step == Returned(Acc(db.articles, seenSlugsInBatch, Tally(successful, failed, errors)));
          continue;
        }

        LookedUp(view, recs, i, env);
        var id := if rec.key in slugToArticle then slugToArticle[rec.key] else NewId(rec, env);
        TriedStep(kind, view, acc, rec, env);
        var tally, articles :- TryRow(kind, db.articles, rec, id, env, Tally(successful, failed, errors),
            seenSlugsInBatch);
        db := db.(articles := articles);
        successful, failed, errors := tally.successful, tally.failed, tally.errors;
        assert step == Returned(Acc(db.articles, seenSlugsInBatch, Tally(successful, failed, errors)));
      }
      return Returned(Tally(successful, failed, errors));
    }

    /** `upsertComments`. */
    method UpsertComments(recs: seq<Record>, row: nat -> RowEnv) returns (r: Result<Tally>)
      modifies this`db
      ensures var fold := CommentFold(old(db.articles).Keys, old(db.users).Keys, CommentAcc(old(db.comments), ZERO),
          recs, row);
        match fold
        case Returned(acc) => r == Returned(acc.tally) && db == old(db).(comments := acc.table)
        case Thrown(m) => r == Thrown(m)
    {
      var articles, users := db.articles.Keys, db.users.Keys;
      ghost var start := CommentAcc(db.comments, ZERO);
      var errors: seq<JobError> := [];
      var successful: nat, failed: nat := 0, 0;
      for i := 0 to |recs|
        invariant db == old(db).(comments := db.comments)
        invariant CommentFold(articles, users, CommentAcc(db.comments, Tally(successful, failed, errors)), recs[i..],
            row)
               == CommentFold(articles, users, start, recs, row)
      {
        var rec := recs[i];
        assert recs[i..][0] == rec && recs[i..][1..] == recs[i + 1..];
        var env := row(rec.line);
        var commentId := CommentId(rec);
        if rec.fields.CommentFields? && rec.fields.articleId !in articles {
          failed := failed + 1;
          errors := errors + [JobError(rec.line, Some("article_id"), MissingReference(rec.fields.articleId))];
          continue;
        }
        if rec.fields.CommentFields? && rec.fields.userId !in users {
          failed := failed + 1;
          errors := errors + [JobError(rec.line, Some("user_id"), MissingReference(rec.fields.userId))];
          continue;
        }

        var savepoint := db;
        var thrown := env.savepoint;
        if thrown.None? && commentId.Some? {
          thrown := env.find;
        }
        if thrown.None? {
          thrown := env.save;
          if thrown.None? {
            if commentId.Some? && commentId.value in db.comments {
              db := db.(comments := db.comments[commentId.value := rec.fields]);
            } else {
              db := db.(comments := db.comments[(if commentId.Some? then commentId.value else env.uuid) := rec.fields]);
            }
            successful := successful + 1;
            thrown := env.release;
          }
        }
        if thrown.Some? {
          if env.rollback.Some? {
            return Thrown(env.rollback.value);
          }
          db := savepoint;
          failed := failed + 1;
          errors := errors + [JobError(rec.line, None, DatabaseError(thrown.value))];
        }
      }
      return Returned(Tally(successful, failed, errors));
    }

    // -------------------------------------------------------------------------------------
    // One transaction
    // -------------------------------------------------------------------------------------

    method UpsertRows(resource: Resource, lower: string -> string, recs: seq<Record>, row: nat -> RowEnv)
      returns (r: Result<Tally>)
      requires Sound(db)
      modifies this`db
      ensures match RowLoop(lower, resource, old(db), recs, row)
        case Returned(done) => r == Returned(done.1) && db == done.0
        case Thrown(m) => r == Thrown(m)
    {
      match resource
      case Users => r := UpsertUsers(recs, lower, row);
      case Articles => r := UpsertArticles(recs, row);
      case Comments => r := UpsertComments(recs, row);
    }

    /** The catch block's loop: one more failure and one more error per record. */
    method MarkAllFailed(recs: seq<Record>, message: string, before: Tally) returns (after: Tally)
      ensures after.successful == before.successful && after.failed == before.failed + |recs|
      ensures after.errors == before.errors + FailedMarks(recs, message)
    {
      var failed, errors := before.failed, before.errors;
      for i := 0 to |recs|
        invariant failed == before.failed + i
        invariant errors == before.errors + FailedMarks(recs, message)[..i]
      {
        failed := failed + 1;
        errors := errors + [JobError(recs[i].line, None, BatchFailed(message))];
      }
      assert FailedMarks(recs, message)[..|recs|] == FailedMarks(recs, message);
      after := Tally(before.successful, failed, errors);
    }

    /** `upsertRecords`: a throw anywhere between the lookups and the commit lands in the catch
        block, which keeps the counts assigned so far and marks every record as failed. */
    method UpsertAll(resource: Resource, lower: string -> string, recs: seq<Record>, row: nat -> RowEnv, env: BatchEnv)
      returns (r: Result<Tally>)
      requires Sound(db)
      modifies this`db
      ensures End(db, r) == UpsertRecords(lower, resource, old(db), recs, row, env)
    {
      if env.begin.Some? {
        return Thrown(env.begin.value);
      }
      var transactionStart := db;
      var errors: seq<JobError> := [];
      var successful: nat, failed: nat := 0, 0;
      var thrown := env.lookup;
      if thrown.None? {
        var result := UpsertRows(resource, lower, recs, row);
        match result
        case Thrown(m) => thrown := Some(m);
        case Returned(t) =>
          successful, failed, errors := t.successful, t.failed, t.errors;
          thrown := env.commit;
      }
      r := Returned(Tally(successful, failed, errors));
      if thrown.Some? {
        db := transactionStart;
        if env.rollback.Some? {
          r := Thrown(env.rollback.value);
        } else {
          var marked := MarkAllFailed(recs, thrown.value, Tally(successful, failed, errors));
          r := Returned(marked);
        }
      }
      if env.release.Some? {
        r := Thrown(env.release.value);
      }
    }

    // -------------------------------------------------------------------------------------
    // One batch
    // -------------------------------------------------------------------------------------

    /** Validation of a batch: errors of invalid records are pushed a whole record at a time while
        there is room. */
    method ValidateAll<D>(imp: Importer<D>, raws: seq<Raw<D>>)
      returns (validRecords: seq<Record>, failed: nat, errors: seq<JobError>)
      ensures validRecords == ValidRecords(imp, raws) && failed == |raws| - |validRecords|
      ensures Take(errors, MAX_ERRORS) == Take(ValidationErrors(imp, raws), MAX_ERRORS)
    {
      errors, failed, validRecords := [], 0, [];
      ghost var all: seq<JobError> := [];
      for i := 0 to |raws|
        invariant validRecords == ValidRecords(imp, raws[..i]) && failed == i - |validRecords|
        invariant all == ValidationErrors(imp, raws[..i]) && Take(errors, MAX_ERRORS) == Take(all, MAX_ERRORS)
      {
        ValidSnoc(imp, raws[..i], raws[i]);
        assert raws[..i + 1] == raws[..i] + [raws[i]];
        match imp.validate(raws[i].data)
        case Good(id, key, fields) =>
          validRecords := validRecords + [Record(raws[i].line, id, key, fields)];
        case Wrong(found) =>
          failed := failed + 1;
          var more := FieldErrors(raws[i].line, found);
          CapPush(errors, all, more);
          all := all + more;
          if |errors| < MAX_ERRORS {
            errors := errors + more;
          }
      }
      assert raws[..|raws|] == raws;
    }

    /** `processBatchWithLineNumbers`: errors of invalid records are pushed a whole record at a time
        while there is room, upsert errors always; up to the cap nothing is missing. */
    method ProcessBatchWithLineNumbers<D>(imp: Importer<D>, raws: seq<Raw<D>>, row: nat -> RowEnv, env: BatchEnv)
      returns (r: Result<Tally>)
      requires Valid()
      modifies this`db
      ensures Valid()
      ensures var end := ProcessBatch(imp, old(db), raws, row, env);
        && db == end.db
        && (match end.outcome
            case Thrown(m) => r == Thrown(m)
            case Returned(t) => r.Returned? && CapsTally(r.value, t))
    {
      BatchKeepsKeys(imp, db, raws, row, env);
      var validRecords, failed, errors := ValidateAll(imp, raws);
      ghost var all := ValidationErrors(imp, raws);
      if |validRecords| == 0 {
        return Returned(Tally(0, failed, errors));
      }
      var t :- UpsertAll(imp.resource, imp.lower, validRecords, row, env);
      CapAppend(errors, all, t.errors);
      return Returned(Tally(t.successful, failed + t.failed, errors + t.errors));
    }

    // -------------------------------------------------------------------------------------
    // The three file loops
    // -------------------------------------------------------------------------------------

    /** `processBatch` on records standing on consecutive lines, and the counter updates after it. */
    method CountBatch<D>(imp: Importer<D>, batch: seq<D>, startRow: nat, env: Env, number: nat, c: Counts,
                         ghost t: Totals)
      returns (r: Result<Counts>)
      requires Valid() && Tracks(c, t)
      modifies this`db
      ensures Valid()
      ensures var end := ProcessBatch(imp, old(db), RawsOf(Items(batch, startRow)), env.row, env.batch(number));
        && db == end.db
        && (match end.outcome
            case Thrown(m) => r == Thrown(m)
            case Returned(x) =>
              r.Returned? && r.value.total == c.total && Tracks(r.value, AddBatch(t, Items(batch, startRow), x)))
    {
      var raws := seq(|batch|, i requires 0 <= i < |batch| => Raw(batch[i], startRow + i));
      ItemsOnly(Items(batch, startRow));
      assert raws == RawsOf(Items(batch, startRow));
      ghost var end := ProcessBatch(imp, db, raws, env.row, env.batch(number));
      var result :- ProcessBatchWithLineNumbers(imp, raws, env.row, env.batch(number));
      assert t.tally.errors + BrokenErrors(Items(batch, startRow)) == t.tally.errors;
      var added := AddResult(c, |batch|, result, t.tally.errors, end.outcome.value.errors);
      return Returned(added);
    }

    /** The body of the CSV and JSON loops: one batch, its counters, and the progress update that is
        due after it. */
    method RunBatch<D>(imp: Importer<D>, pace: Pace, batch: seq<D>, startRow: nat, env: Env, number: nat, c: Counts,
                       ghost t: Totals, ghost batches: seq<seq<Entry<D>>>)
      returns (r: Result<Counts>, ghost t': Totals)
      requires Valid() && Tracks(c, t)
      requires batches != [] && batches[0] == Items(batch, startRow)
      modifies this`db
      ensures Valid()
      ensures r.Thrown? ==> RunBatches(imp, pace, old(db), t, batches, number, env) == End(db, Thrown(r.message))
      ensures r.Returned? ==>
        && RunBatches(imp, pace, old(db), t, batches, number, env)
           == RunBatches(imp, pace, db, t', batches[1..], number + 1, env)
        && Tracks(r.value, t') && r.value.total == c.total && t'.total == t.total + |batch|
    {
      RunHead(imp, pace, db, t, batches, number, env);
      ghost var end := ProcessBatch(imp, db, RawsOf(batches[0]), env.row, env.batch(number));
      t' := t;
      r := CountBatch(imp, batch, startRow, env, number, c, t);
      if r.Returned? {
        t' := AddBatch(t, batches[0], end.outcome.value);
        if pace.Due(number) && env.batch(number).progress.Some? {
          r := Thrown(env.batch(number).progress.value);
        }
      }
    }

    /** `processCSVStream` over the records the CSV parser yields. */
    method ProcessCsvStream<D>(imp: Importer<D>, rows: seq<D>, env: Env) returns (r: Result<Counts>)
      requires Valid()
      modifies this`db
      ensures Valid()
      ensures var end := RunBatches(imp, EveryTenth, old(db), NOTHING, Chunks(Items(rows, 1), batchSize), 1, env);
        db == end.db && Capped(r, end.outcome)
    {
      var batches := BatchAll(rows, batchSize);
      ghost var full := Chunks(Items(rows, 1), batchSize);
      ghost var end := RunBatches(imp, EveryTenth, db, NOTHING, full, 1, env);
      var c := Counts(0, 0, 0, 0, 0, []);
      ghost var t := NOTHING;
      SameShape(rows, 1, batchSize);
      assert full[0..] == full && full[|full|..] == [];
      for n := 0 to |batches|
        invariant Valid() && Tracks(c, t) && c.total == t.total
        invariant RunBatches(imp, EveryTenth, db, t, full[n..], n + 1, env) == end
      {
        var batchNumber := n + 1;
        var startRow := StartRow(batchNumber, batchSize);
        CsvTurn(rows, batchSize, n);
        c := c.(total := c.total + |batches[n]|);
        c, t :- RunBatch(imp, EveryTenth, batches[n], startRow, env, batchNumber, c, t, full[n..]);
      }
      return Returned(c);
    }

    /** `processJSONStream` over the outcome of parsing the whole file: the total is known before the
        first batch, and progress is reported after every one. */
    method ProcessJsonStream<D>(imp: Importer<D>, parsed: Result<seq<D>>, env: Env) returns (r: Result<Counts>)
      requires Valid()
      modifies this`db
      ensures Valid()
      ensures parsed.Thrown? ==> r == Thrown(parsed.message) && db == old(db)
      ensures parsed.Returned? ==>
        var end := RunBatches(imp, EveryBatch, old(db), NOTHING, Chunks(Items(parsed.value, 1), batchSize), 1, env);
        db == end.db && Capped(r, end.outcome)
    {
      var data :- parsed;
      r := RunJson(imp, data, env);
    }

    /** One turn of the JSON loop: the slice from `i` on, which is batch number `n + 1`. */
    method RunSlice<D>(imp: Importer<D>, data: seq<D>, i: nat, n: nat, env: Env, c: Counts, ghost t: Totals)
      returns (r: Result<Counts>, ghost t': Totals)
      requires Valid() && Tracks(c, t) && i < |data|
      requires JsonTurn(batchSize, |data|, |Chunks(Items(data, 1), batchSize)|, n, i)
      modifies this`db
      ensures Valid()
      ensures var full := Chunks(Items(data, 1), batchSize);
        var before := RunBatches(imp, EveryBatch, old(db), t, full[n..], n + 1, env);
        && (r.Thrown? ==> before == End(db, Thrown(r.message)))
        && (r.Returned? ==>
              && n + 1 <= |full| && before == RunBatches(imp, EveryBatch, db, t', full[n + 1..], n + 2, env)
              && Tracks(r.value, t') && r.value.total == c.total
              && JsonTurn(batchSize, |data|, |full|, n + 1, i + batchSize))
    {
      var batch := Slice(data, i, batchSize);
      var startRow := i + 1;
      ghost var left := Chunks(Items(data, 1), batchSize)[n..];
      NextTurn(data, batchSize, n, i);
      r, t' := RunBatch(imp, EveryBatch, batch, startRow, env, n + 1, c, t, left);
    }

    method RunJson<D>(imp: Importer<D>, data: seq<D>, env: Env) returns (r: Result<Counts>)
      requires Valid()
      modifies this`db
      ensures Valid()
      ensures var end := RunBatches(imp, EveryBatch, old(db), NOTHING, Chunks(Items(data, 1), batchSize), 1, env);
        db == end.db && Capped(r, end.outcome)
    {
      ghost var full := Chunks(Items(data, 1), batchSize);
      assert full[0..] == full;
      ghost var end := RunBatches(imp, EveryBatch, db, NOTHING, full[0..], 0 + 1, env);
      JsonTotal(imp, db, data, batchSize, env);
      var c := Counts(|data|, 0, 0, 0, 0, []);
      ghost var t := NOTHING;
      var n: nat := 0;  // batches done so far, to name the surroundings of the next one
      var i: nat := 0;
      FirstSlice(data, batchSize);
      while i < |data|
        invariant Valid() && Tracks(c, t) && c.total == |data|
        invariant JsonTurn(batchSize, |data|, |full|, n, i)
        invariant RunBatches(imp, EveryBatch, db, t, full[n..], n + 1, env) == end
      {
        c, t :- RunSlice(imp, data, i, n, env, c, t);
        i := i + batchSize;
        n := n + 1;
      }
      assert full[n..] == [];
      return Returned(c);
    }

    /** The separating loop over one NDJSON batch: unparsable lines are failures at once, falsy
        values are dropped, the rest become records. */
    method Separate<D>(batch: seq<LineItem<D>>, truthy: D -> bool, c: Counts, ghost t: Totals)
      returns (raws: seq<Raw<D>>, c': Counts)
      requires Tracks(c, t)
      ensures var entries := Classified(truthy, batch);
        && raws == RawsOf(entries)
        && c' == c.(failed := c.failed + |BrokenErrors(entries)|,
                    errors := Take(t.tally.errors + BrokenErrors(entries), MAX_ERRORS))
    {
      raws := [];
      var failed, errors := c.failed, c.errors;
      ghost var all := t.tally.errors;
      ghost var entries := Classified(truthy, batch);
      for j := 0 to |batch|
        invariant raws == RawsOf(entries[..j])
        invariant failed == c.failed + |BrokenErrors(entries[..j])|
        invariant all == t.tally.errors + BrokenErrors(entries[..j])
        invariant errors == Take(all, MAX_ERRORS)
      {
        OneMore(entries, j);
        match batch[j]
        case Bad(line, reason, _) =>
          failed := failed + 1;
          var error := JobError(line, None, Unparsable(reason));
          errors := PushCapped(errors, error, all);
          all := all + [error];
        case Data(value, line) =>
          if truthy(value) {
            raws := raws + [Raw(value, line)];
          }
      }
      assert entries[..|batch|] == entries;
      c' := c.(failed := failed, errors := errors);
    }

    /** `processNDJSONStream`: the file is the text of its chunks, however it was cut. */
    method ProcessNdjsonStream<D>(imp: Importer<D>, parse: string -> Parsed<D>, truthy: D -> bool,
                                  chunks: seq<string>, env: Env)
      returns (r: Result<Counts>)
      requires Valid()
      modifies this`db
      ensures Valid()
      ensures var entries := Classified(truthy, NdjsonItems(parse, Flatten(chunks)));
        var end := RunBatches(imp, EveryTenth, old(db), NOTHING, Chunks(entries, batchSize), 1, env);
        db == end.db && Capped(r, end.outcome)
    {
      var items := ParseNdjson(parse, chunks);
      var batches := BatchAll(items, batchSize);
      ghost var full := Chunks(Classified(truthy, items), batchSize);
      ghost var end := RunBatches(imp, EveryTenth, db, NOTHING, full, 1, env);
      var c := Counts(0, 0, 0, 0, 0, []);
      ghost var t := NOTHING;
      SameShapeClassified(truthy, items, batchSize);
      for n := 0 to |batches|
        invariant Valid() && Tracks(c, t) && c.total == t.total
        invariant RunBatches(imp, EveryTenth, db, t, full[n..], n + 1, env) == end
      {
        var batchNumber := n + 1;
        ClassifiedChunk(truthy, items, batchSize, n);
        assert full[n..][0] == full[n] && full[n..][1..] == full[n + 1..];
        RunHead(imp, EveryTenth, db, t, full[n..], batchNumber, env);
        ghost var result := ProcessBatch(imp, db, RawsOf(full[n]), env.row, env.batch(batchNumber)).outcome;
        c := c.(total := c.total + |batches[n]|);
        var raws, separated := Separate(batches[n], truthy, c, t);
        c :- CountRecords(imp, raws, env, batchNumber, separated, t.tally.errors + BrokenErrors(full[n]));
        t := AddBatch(t, full[n], result.value);
        if batchNumber % 10 == 0 && env.batch(batchNumber).progress.Some? {
          return Thrown(env.batch(batchNumber).progress.value);
        }
      }
      return Returned(c);
    }

    /** The processing of a batch's records, if there are any. */
    method CountRecords<D>(imp: Importer<D>, raws: seq<Raw<D>>, env: Env, number: nat, c: Counts,
                           ghost all: seq<JobError>)
      returns (r: Result<Counts>)
      requires Valid() && c.errors == Take(all, MAX_ERRORS)
      modifies this`db
      ensures Valid()
      ensures var end := ProcessBatch(imp, old(db), raws, env.row, env.batch(number));
        && db == end.db
        && (match end.outcome
            case Thrown(m) => r == Thrown(m)
            case Returned(x) =>
              r == Returned(Counts(c.total, c.processed + |raws|, c.successful + x.successful, c.failed + x.failed,
                                   c.skipped, Take(all + x.errors, MAX_ERRORS))))
    {
      if |raws| == 0 {
        assert all + [] == all;
        return Returned(c);
      }
      ghost var end := ProcessBatch(imp, db, raws, env.row, env.batch(number));
      var result :- ProcessBatchWithLineNumbers(imp, raws, env.row, env.batch(number));
      var added := AddResult(c, |raws|, result, all, end.outcome.value.errors);
      return Returned(added);
    }
  }

  /** Counters equal apart from the total, errors cut at the cap. */
  ghost predicate Tracks(c: Counts, t: Totals) {
    && c.processed == t.processed
    && c.successful == t.tally.successful && c.failed == t.tally.failed && c.skipped == 0
    && c.errors == Take(t.tally.errors, MAX_ERRORS)
  }

  /** Counters equal, errors equal up to the cap. */
  ghost predicate CapsTally(capped: Tally, full: Tally) {
    && capped.successful == full.successful && capped.failed == full.failed
    && Take(capped.errors, MAX_ERRORS) == Take(full.errors, MAX_ERRORS)
  }

  lemma CapAppend(errors: seq<JobError>, all: seq<JobError>, more: seq<JobError>)
    requires Take(errors, MAX_ERRORS) == Take(all, MAX_ERRORS)
    ensures Take(errors + more, MAX_ERRORS) == Take(all + more, MAX_ERRORS)
  {
    TakeAppend(errors, more, MAX_ERRORS);
    TakeAppend(all, more, MAX_ERRORS);
  }

  /** Dropping a push on a full list loses nothing below the cap. */
  lemma CapPush(errors: seq<JobError>, all: seq<JobError>, more: seq<JobError>)
    requires Take(errors, MAX_ERRORS) == Take(all, MAX_ERRORS)
    ensures Take(if |errors| < MAX_ERRORS then errors + more else errors, MAX_ERRORS) == Take(all + more, MAX_ERRORS)
  {
    CapAppend(errors, all, more);
    TakeAppend(errors, more, MAX_ERRORS);
  }

  lemma {:induction false} ValidSnoc<D>(imp: Importer<D>, raws: seq<Raw<D>>, raw: Raw<D>)
    ensures ValidRecords(imp, raws + [raw]) == ValidRecords(imp, raws) + ValidRecords(imp, [raw])
    ensures ValidationErrors(imp, raws + [raw]) == ValidationErrors(imp, raws) + ValidationErrors(imp, [raw])
    ensures ValidRecords(imp, [raw]) == match imp.validate(raw.data)
              case Good(id, key, fields) => [Record(raw.line, id, key, fields)]
              case Wrong(_) => []
    ensures ValidationErrors(imp, [raw]) == match imp.validate(raw.data)
              case Good(_, _, _) => []
              case Wrong(errors) => FieldErrors(raw.line, errors)
  {
    assert [raw][1..] == [];
    if raws == [] {
      assert raws + [raw] == [raw];
    } else {
      ValidSnoc(imp, raws[1..], raw);
      assert (raws + [raw])[0] == raws[0] && (raws + [raw])[1..] == raws[1..] + [raw];
    }
  }

  // ---------------------------------------------------------------------------------------
  // Files as batches of entries
  // ---------------------------------------------------------------------------------------

  /** Records on consecutive lines from `first` on. */
  function Items<D>(rows: seq<D>, first: nat): (entries: seq<Entry<D>>)
    ensures |entries| == |rows|
    ensures forall i :: 0 <= i < |rows| ==> entries[i] == Item(rows[i], first + i)
  {
    seq(|rows|, i requires 0 <= i < |rows| => Item(rows[i], first + i))
  }

  lemma SameShape<D>(rows: seq<D>, first: nat, size: nat)
    requires size >= 1
    ensures |Chunks(Items(rows, first), size)| == |Chunks(rows, size)|
  {
    var a, b := |Chunks(Items(rows, first), size)|, |Chunks(rows, size)|;
    ChunkAt(rows, size, a);
    ChunkAt(Items(rows, first), size, a);
    ChunkAt(rows, size, b);
    ChunkAt(Items(rows, first), size, b);
  }

  /** Batching the numbered records and numbering the batched ones agree: batch `n` starts on line
      `n * size + first`. */
  lemma ItemChunk<D>(rows: seq<D>, first: nat, size: nat, n: nat)
    requires size >= 1 && n < |Chunks(rows, size)|
    ensures n < |Chunks(Items(rows, first), size)|
    ensures Chunks(Items(rows, first), size)[n] == Items(Chunks(rows, size)[n], n * size + first)
  {
    ChunkStartIs(size, n);
    ChunkAt(rows, size, n);
    ChunkAt(Items(rows, first), size, n);
  }

  lemma {:induction false} ChunkSizes<D>(entries: seq<Entry<D>>, size: nat)
    requires size >= 1
    ensures SizeOf(Chunks(entries, size)) == |entries|
    ensures IgnoredIn(Chunks(entries, size)) == IgnoredCount(entries)
    ensures BrokenIn(Chunks(entries, size)) == |BrokenErrors(entries)|
  {
    if entries == [] {
    } else if |entries| <= size {
      assert [entries][1..] == [];
    } else {
      ChunkSizes(entries[size..], size);
      CountsAppend(entries[..size], entries[size..]);
      assert entries == entries[..size] + entries[size..];
      assert Chunks(entries, size)[1..] == Chunks(entries[size..], size);
    }
  }

  lemma {:induction false} CountsAppend<D>(a: seq<Entry<D>>, b: seq<Entry<D>>)
    ensures IgnoredCount(a + b) == IgnoredCount(a) + IgnoredCount(b)
    ensures |BrokenErrors(a + b)| == |BrokenErrors(a)| + |BrokenErrors(b)|
  {
    if a == [] {
      assert a + b == b;
    } else {
      CountsAppend(a[1..], b);
      assert (a + b)[0] == a[0] && (a + b)[1..] == a[1..] + b;
    }
  }

  /** The line on which the first record of a CSV batch is reported. */
  function StartRow(number: nat, size: nat): (line: nat)
    requires number >= 1
  {
    (number - 1) * size + 1
  }

  /** One turn of the CSV loop takes the first batch that is left. */
  lemma CsvTurn<D>(rows: seq<D>, size: nat, n: nat)
    requires size >= 1 && n < |Chunks(rows, size)|
    ensures n < |Chunks(Items(rows, 1), size)|
    ensures var left := Chunks(Items(rows, 1), size)[n..];
      left != [] && left[0] == Items(Chunks(rows, size)[n], StartRow(n + 1, size))
    ensures Chunks(Items(rows, 1), size)[n..][1..] == Chunks(Items(rows, 1), size)[n + 1..]
  {
    ItemChunk(rows, 1, size, n);
  }

  /** The JSON loop before turn `n`: `i` is where batch `n` starts, if there is one. */
  predicate JsonTurn(size: nat, records: nat, batches: nat, n: nat, i: nat) {
    i == ChunkStart(size, n) && n <= batches && (n < batches <==> i < records)
  }

  /** The total of a completed JSON run is the number of records. */
  lemma JsonTotal<D>(imp: Importer<D>, db: Database, data: seq<D>, size: nat, env: Env)
    requires Sound(db) && size >= 1
    ensures var r := RunBatches(imp, EveryBatch, db, NOTHING, Chunks(Items(data, 1), size), 1, env).outcome;
            r.Returned? ==> r.value.total == |data|
  {
    FileCounts(imp, EveryBatch, db, NOTHING, Chunks(Items(data, 1), size), 1, env);
    ChunkSizes(Items(data, 1), size);
  }

  /** `data.slice(i, i + size)`. */
  function Slice<D>(data: seq<D>, i: nat, size: nat): (batch: seq<D>)
    requires i <= |data|
  {
    data[i..if i + size < |data| then i + size else |data|]
  }

  lemma FirstSlice<D>(data: seq<D>, size: nat)
    requires size >= 1
    ensures 0 < |Chunks(Items(data, 1), size)| <==> 0 < |data|
  {
  }

  /** `slice(i, i + batchSize)` at the `n`-th turn of the JSON loop is batch `n`, numbered from `i + 1`. */
  lemma SliceIsChunk<D>(data: seq<D>, size: nat, n: nat)
    requires size >= 1 && ChunkStart(size, n) < |data|
    ensures var full := Chunks(Items(data, 1), size);
      var i := ChunkStart(size, n);
      && n < |full|
      && full[n] == Items(Slice(data, i, size), i + 1)
      && (n + 1 < |full| <==> ChunkStart(size, n + 1) < |data|)
  {
    ChunkAt(Items(data, 1), size, n);
    ChunkAt(Items(data, 1), size, n + 1);
  }

  /** One turn of the JSON loop takes the first batch that is left. */
  lemma NextTurn<D>(data: seq<D>, size: nat, n: nat, i: nat)
    requires size >= 1 && JsonTurn(size, |data|, |Chunks(Items(data, 1), size)|, n, i) && i < |data|
    ensures var full := Chunks(Items(data, 1), size);
      var batch := Slice(data, i, size);
      && full[n..] != [] && full[n..][0] == Items(batch, i + 1) && full[n..][1..] == full[n + 1..]
      && JsonTurn(size, |data|, |full|, n + 1, i + size)
  {
    SliceIsChunk(data, size, n);
  }

  /** A loop's result against the uncapped one: the same throw, or the same counters and the first
      errors up to the cap. */
  ghost predicate Capped(r: Result<Counts>, full: Result<Totals>) {
    match full
    case Thrown(m) => r == Thrown(m)
    case Returned(t) => r.Returned? && CapsTotals(r.value, t)
  }

  /** One error pushed while there is room. */
  method PushCapped(errors: seq<JobError>, error: JobError, ghost all: seq<JobError>) returns (errors': seq<JobError>)
    requires errors == Take(all, MAX_ERRORS)
    ensures errors' == Take(all + [error], MAX_ERRORS)
  {
    CapPush(errors, all, [error]);
    errors' := errors;
    if |errors| < MAX_ERRORS {
      errors' := errors + [error];
    }
  }

  /** The counter updates after a batch, with its errors pushed as far as there is room. */
  method AddResult(c: Counts, processed: nat, result: Tally, ghost all: seq<JobError>, ghost more: seq<JobError>)
    returns (c': Counts)
    requires c.errors == Take(all, MAX_ERRORS) && Take(result.errors, MAX_ERRORS) == Take(more, MAX_ERRORS)
    ensures c' == Counts(c.total, c.processed + processed, c.successful + result.successful, c.failed + result.failed,
                         c.skipped, Take(all + more, MAX_ERRORS))
  {
    var errors := c.errors;
    if |errors| < MAX_ERRORS {
      errors := errors + Take(result.errors, MAX_ERRORS - |errors|);
    }
    CapSlice(c.errors, all, result.errors, more);
    c' := Counts(c.total, c.processed + processed, c.successful + result.successful, c.failed + result.failed,
        c.skipped, errors);
  }

  /** Pushing only as many as fit keeps the list equal to the cut full list. */
  lemma CapSlice(errors: seq<JobError>, all: seq<JobError>, capped: seq<JobError>, more: seq<JobError>)
    requires errors == Take(all, MAX_ERRORS) && Take(capped, MAX_ERRORS) == Take(more, MAX_ERRORS)
    ensures (if |errors| < MAX_ERRORS then errors + Take(capped, MAX_ERRORS - |errors|) else errors)
         == Take(all + more, MAX_ERRORS)
  {
    TakeAppend(all, more, MAX_ERRORS);
    if |errors| < MAX_ERRORS {
      var room := MAX_ERRORS - |errors|;
      assert Take(capped, room) == Take(Take(capped, MAX_ERRORS), room);
      assert Take(more, room) == Take(Take(more, MAX_ERRORS), room);
    }
  }

  /** What an NDJSON item is for the import. */
  function Classify<D>(truthy: D -> bool, item: LineItem<D>): (entry: Entry<D>) {
    match item
    case Bad(line, reason, _) => Broken(line, reason)
    case Data(value, line) => if truthy(value) then Item(value, line) else Ignored(line)
  }

  function Classified<D>(truthy: D -> bool, items: seq<LineItem<D>>): (entries: seq<Entry<D>>)
    ensures |entries| == |items|
    ensures forall i :: 0 <= i < |items| ==> entries[i] == Classify(truthy, items[i])
  {
    seq(|items|, i requires 0 <= i < |items| => Classify(truthy, items[i]))
  }

  /** A line that does not parse is an error with its reason; a truthy value is a record of its line; any
      other value is only counted. */
  lemma ClassifiedIs<D>(truthy: D -> bool, items: seq<LineItem<D>>, i: nat)
    requires i < |items|
    ensures var entry := Classified(truthy, items)[i];
      && (items[i].Bad? ==> entry == Broken(items[i].line, items[i].reason))
      && (items[i].Data? && truthy(items[i].value) ==> entry == Item(items[i].value, items[i].line))
      && (items[i].Data? && !truthy(items[i].value) ==> entry == Ignored(items[i].line))
  {
  }

  lemma SameShapeClassified<D>(truthy: D -> bool, items: seq<LineItem<D>>, size: nat)
    requires size >= 1
    ensures |Chunks(Classified(truthy, items), size)| == |Chunks(items, size)|
  {
    var a, b := |Chunks(Classified(truthy, items), size)|, |Chunks(items, size)|;
    ChunkAt(items, size, a);
    ChunkAt(Classified(truthy, items), size, a);
    ChunkAt(items, size, b);
    ChunkAt(Classified(truthy, items), size, b);
  }

  lemma ClassifiedChunk<D>(truthy: D -> bool, items: seq<LineItem<D>>, size: nat, n: nat)
    requires size >= 1 && n < |Chunks(items, size)|
    ensures n < |Chunks(Classified(truthy, items), size)|
    ensures Chunks(Classified(truthy, items), size)[n] == Classified(truthy, Chunks(items, size)[n])
  {
    ChunkAt(items, size, n);
    ChunkAt(Classified(truthy, items), size, n);
  }

  lemma OneMore<D>(batch: seq<Entry<D>>, j: nat)
    requires j < |batch|
    ensures RawsOf(batch[..j + 1])
         == RawsOf(batch[..j]) + if batch[j].Item? then [Raw(batch[j].data, batch[j].line)] else []
    ensures BrokenErrors(batch[..j + 1])
         == BrokenErrors(batch[..j])
            + if batch[j].Broken? then [JobError(batch[j].line, None, Unparsable(batch[j].message))] else []
  {
    assert batch[..j + 1] == batch[..j] + [batch[j]];
    RawsSnoc(batch[..j], batch[j]);
    BrokenSnoc(batch[..j], batch[j]);
  }

  lemma {:induction false} RawsSnoc<D>(batch: seq<Entry<D>>, entry: Entry<D>)
    ensures RawsOf(batch + [entry]) == RawsOf(batch) + (if entry.Item? then [Raw(entry.data, entry.line)] else [])
  {
    if batch == [] {
      assert batch + [entry] == [entry] && [entry][1..] == [];
    } else {
      RawsSnoc(batch[1..], entry);
      assert (batch + [entry])[1..] == batch[1..] + [entry];
    }
  }

  lemma {:induction false} BrokenSnoc<D>(batch: seq<Entry<D>>, entry: Entry<D>)
    ensures BrokenErrors(batch + [entry])
         == BrokenErrors(batch) + if entry.Broken? then [JobError(entry.line, None, Unparsable(entry.message))] else []
  {
    if batch == [] {
      assert batch + [entry] == [entry] && [entry][1..] == [];
    } else {
      BrokenSnoc(batch[1..], entry);
      assert (batch + [entry])[1..] == batch[1..] + [entry];
    }
  }
}
