/** Imports without faults: what comes of clean batches and files. */
module QuietImports {
  import opened Wrappers
  import opened StreamUtils
  import opened Upserts
  import opened Imports
  import opened ImportsService
  import opened Reimport
  import opened BatchResults

  // ---------------------------------------------------------------------------------------
  // Users and articles
  // ---------------------------------------------------------------------------------------

  /** Untried keys, all different, of accepted rows: every row of a quiet batch succeeds, whatever ids
      clash. */
  lemma {:induction false} AllSucceed(kind: Kind, view: Table, acc: Acc, recs: seq<Record>, env: nat -> RowEnv)
    requires UniqueKeys(view) && UniqueKeys(acc.table) && UntriedKeptOrLost(kind, view, acc) && QuietRows(env)
    requires forall i :: 0 <= i < |recs| ==> kind.Accepts(recs[i]) && kind.canon(recs[i].key) !in acc.seen
    requires forall i, j :: 0 <= i < j < |recs| ==> kind.canon(recs[i].key) != kind.canon(recs[j].key)
    ensures var r := FastFold(kind, view, acc, recs, env);
      && r.Returned?
      && r.value.tally == Tally(acc.tally.successful + |recs|, acc.tally.failed, acc.tally.errors)
    decreases |recs|
  {
    if recs != [] {
      var rec, rest := recs[0], recs[1..];
      assert env(rec.line).savepoint.None?;
      QuietRow(kind, view, acc, rec, env(rec.line), rec.key);
      QuietRowSaves(kind, view, acc, rec, env(rec.line));
      var next := StepRow(kind, view, acc, rec, env(rec.line)).value;
      assert forall i :: 0 <= i < |rest| ==> rest[i] == recs[i + 1];
      AllSucceed(kind, view, next, rest, env);
    }
  }

  /** The ids of new rows are neither stored nor given to two of them. */
  ghost predicate NewIdsDiffer(t: Table, recs: seq<Record>, env: nat -> RowEnv) {
    && (forall i, id :: 0 <= i < |recs| && !HasKey(t, recs[i].key) && TakesId(recs[i], env, id) ==> id !in t)
    && (forall i, j, id :: 0 <= i < j < |recs| && !HasKey(t, recs[i].key) && !HasKey(t, recs[j].key) ==>
          !TakesId(recs[i], env, id) || !TakesId(recs[j], env, id))
  }

  /** The id a new row takes: the one it supplies, or the one generated for its line. */
  predicate TakesId(rec: Record, env: nat -> RowEnv, id: Id) {
    rec.id == Some(id) || (rec.id == None && id == env(rec.line).uuid)
  }

  /** A row is stored with its columns, under the id its key had or a new one. */
  predicate RowStored(t: Table, rec: Record, env: nat -> RowEnv, t': Table)
    requires UniqueKeys(t) && UniqueKeys(t')
  {
    && HasKey(t', rec.key) && t'[IdOf(t', rec.key)] == Row(rec.key, rec.fields)
    && (if HasKey(t, rec.key) then IdOf(t', rec.key) == IdOf(t, rec.key)
        else TakesId(rec, env, IdOf(t', rec.key)))
  }

  predicate SameRow(t: Table, t': Table, key: string)
    requires UniqueKeys(t) && UniqueKeys(t')
  {
    && (HasKey(t, key) <==> HasKey(t', key))
    && (HasKey(t, key) ==> IdOf(t', key) == IdOf(t, key) && t'[IdOf(t, key)] == t[IdOf(t, key)])
  }

  ghost predicate StoredWith(t: Table, recs: seq<Record>, env: nat -> RowEnv, t': Table)
    requires UniqueKeys(t) && UniqueKeys(t')
  {
    && (forall i :: 0 <= i < |recs| ==> RowStored(t, recs[i], env, t'))
    && (forall key :: (forall i :: 0 <= i < |recs| ==> recs[i].key != key) ==> SameRow(t, t', key))
  }

  lemma NewIdsDoNotClash(kind: Kind, t: Table, recs: seq<Record>, env: nat -> RowEnv)
    requires UniqueKeys(t) && NewIdsDiffer(t, recs, env)
    ensures NoIdClash(kind, t, t.Keys, {}, recs, env)
  {
    assert forall i :: 0 <= i < |recs| ==> TakesId(recs[i], env, NewIdAt(recs, env, i));
  }

  lemma EachIsStored(kind: Kind, t: Table, recs: seq<Record>, env: nat -> RowEnv, i: nat)
    requires UniqueKeys(t) && QuietRows(env) && NoIdClash(kind, t, t.Keys, {}, recs, env)
    requires i < |recs| && Tries(kind, recs, i)
    ensures RowStored(t, recs[i], env, ImportBatch(kind, t, recs, env))
  {
    WinnerMeaning(kind, {}, recs, recs[i].key, i);
    ImportBatchLookup(kind, t, recs, env, recs[i].key);
  }

  lemma OthersStay(kind: Kind, t: Table, recs: seq<Record>, env: nat -> RowEnv, key: string)
    requires UniqueKeys(t) && QuietRows(env) && NoIdClash(kind, t, t.Keys, {}, recs, env)
    requires forall i :: 0 <= i < |recs| ==> recs[i].key != key
    ensures SameRow(t, ImportBatch(kind, t, recs, env), key)
  {
    var t' := ImportBatch(kind, t, recs, env);
    var w := Winner(kind, {}, recs, key);
    if w.Some? {
      WinnerMeaning(kind, {}, recs, key, w.value);
      assert false;
    }
    ImportBatchLookup(kind, t, recs, env, key);
    assert Lookup(t', key) == Lookup(t, key);
    assert HasKey(t, key) ==> t[IdOf(t, key)].key == key && t'[IdOf(t', key)].key == key;
  }

  /** Then every row is also stored under its key with its columns, keeping the id of a stored row, and
      every other key is as it was. */
  lemma AllStoredAfter(kind: Kind, t: Table, recs: seq<Record>, env: nat -> RowEnv)
    requires UniqueKeys(t) && QuietRows(env) && NewIdsDiffer(t, recs, env)
    requires forall i :: 0 <= i < |recs| ==> Tries(kind, recs, i)
    ensures StoredWith(t, recs, env, ImportBatch(kind, t, recs, env))
  {
    NewIdsDoNotClash(kind, t, recs, env);
    forall i | 0 <= i < |recs|
      ensures RowStored(t, recs[i], env, ImportBatch(kind, t, recs, env))
    {
      EachIsStored(kind, t, recs, env, i);
    }
    forall key | forall i :: 0 <= i < |recs| ==> recs[i].key != key
      ensures SameRow(t, ImportBatch(kind, t, recs, env), key)
    {
      OthersStay(kind, t, recs, env, key);
    }
  }

  /** A quiet batch of users whose emails differ in more than case: all succeed, no error, and if new ids
      do not clash each is stored under its email with its columns and nothing else changes. */
  lemma QuietUsers(lower: string -> string, db: Database, recs: seq<Record>, row: nat -> RowEnv)
    requires Sound(db) && QuietRows(row)
    requires forall i, j :: 0 <= i < j < |recs| ==> lower(recs[i].key) != lower(recs[j].key)
    ensures var r := RowLoop(lower, Users, db, recs, row);
      && r.Returned? && r.value.1 == Tally(|recs|, 0, []) && UniqueKeys(r.value.0.users)
      && (NewIdsDiffer(db.users, recs, row) ==> StoredWith(db.users, recs, row, r.value.0.users))
  {
    var kind, acc := UserKind(lower), Acc(db.users, map[], ZERO);
    assert UntriedKeptOrLost(kind, db.users, acc);
    AllSucceed(kind, db.users, acc, recs, row);
    var after := ImportBatch(kind, db.users, recs, row);
    if NewIdsDiffer(db.users, recs, row) {
      AllStoredAfter(kind, db.users, recs, row);
    }
  }

  /** The same of articles with different slugs by stored authors. */
  lemma QuietArticles(lower: string -> string, db: Database, recs: seq<Record>, row: nat -> RowEnv)
    requires Sound(db) && QuietRows(row)
    requires forall i, j :: 0 <= i < j < |recs| ==> recs[i].key != recs[j].key
    requires forall i :: 0 <= i < |recs| && recs[i].fields.ArticleFields? ==> recs[i].fields.authorId in db.users
    ensures var r := RowLoop(lower, Articles, db, recs, row);
      && r.Returned? && r.value.1 == Tally(|recs|, 0, []) && UniqueKeys(r.value.0.articles)
      && (NewIdsDiffer(db.articles, recs, row) ==> StoredWith(db.articles, recs, row, r.value.0.articles))
  {
    var kind, acc := ArticleKind(db.users.Keys), Acc(db.articles, map[], ZERO);
    assert UntriedKeptOrLost(kind, db.articles, acc);
    AllSucceed(kind, db.articles, acc, recs, row);
    var after := ImportBatch(kind, db.articles, recs, row);
    if NewIdsDiffer(db.articles, recs, row) {
      AllStoredAfter(kind, db.articles, recs, row);
    }
  }

  // ---------------------------------------------------------------------------------------
  // Comments
  // ---------------------------------------------------------------------------------------

  /** The id a comment is stored under: the one it carries, without a prefix `cm_`, or the one generated
      for its line. */
  predicate StandsUnder(rec: Record, env: nat -> RowEnv, id: Id) {
    if rec.id.None? then id == env(rec.line).uuid
    else rec.id.value == "cm_" + id || (rec.id.value == id && !("cm_" <= id))
  }

  lemma OneId(rec: Record, env: nat -> RowEnv, id: Id)
    ensures StandsUnder(rec, env, id) <==> id == CommentTarget(rec, env(rec.line))
  {
    if rec.id.Some? && "cm_" <= rec.id.value {
      assert rec.id.value == "cm_" + rec.id.value[3..];
      assert rec.id.value == "cm_" + id ==> rec.id.value[3..] == id;
    }
  }

  /** Row `i` is the last that is stored under an id. */
  predicate LastUnder(recs: seq<Record>, row: nat -> RowEnv, id: Id, i: nat)
    requires i < |recs|
  {
    StandsUnder(recs[i], row, id) && forall j :: i < j < |recs| ==> !StandsUnder(recs[j], row, id)
  }

  predicate NoneUnder(recs: seq<Record>, row: nat -> RowEnv, id: Id) {
    forall i :: 0 <= i < |recs| ==> !StandsUnder(recs[i], row, id)
  }

  /** One quiet comment. */
  lemma QuietCommentRow(articles: set<Id>, users: set<Id>, acc: CommentAcc, rec: Record, row: nat -> RowEnv, id: Id)
    requires QuietRows(row) && AcceptedBy(articles, users, rec)
    ensures var r := StepComment(articles, users, acc, rec, row(rec.line));
      && r.Returned? && r.value.tally == acc.tally.Win()
      && (if StandsUnder(rec, row, id) then id in r.value.table && r.value.table[id] == rec.fields
          else SameComment(acc.table, r.value.table, id))
  {
    assert row(rec.line).savepoint.None?;
    OneId(rec, row, id);
  }

  predicate SameComment(before: Comments, after: Comments, id: Id) {
    (id in after <==> id in before) && (id in before ==> after[id] == before[id])
  }

  lemma {:induction false} QuietCommentRows(articles: set<Id>, users: set<Id>, acc: CommentAcc, recs: seq<Record>,
                                            row: nat -> RowEnv, id: Id)
    requires QuietRows(row) && forall i :: 0 <= i < |recs| ==> AcceptedBy(articles, users, recs[i])
    ensures var r := CommentFold(articles, users, acc, recs, row);
      && r.Returned?
      && r.value.tally == Tally(acc.tally.successful + |recs|, acc.tally.failed, acc.tally.errors)
      && (NoneUnder(recs, row, id) ==> SameComment(acc.table, r.value.table, id))
    decreases |recs|
  {
    if recs != [] {
      var rec, rest := recs[0], recs[1..];
      QuietCommentRow(articles, users, acc, rec, row, id);
      assert forall i :: 0 <= i < |rest| ==> rest[i] == recs[i + 1];
      QuietCommentRows(articles, users, StepComment(articles, users, acc, rec, row(rec.line)).value, rest, row, id);
    }
  }

  lemma {:induction false} LastCommentStays(articles: set<Id>, users: set<Id>, acc: CommentAcc, recs: seq<Record>,
                                            row: nat -> RowEnv, id: Id, i: nat)
    requires QuietRows(row) && forall k :: 0 <= k < |recs| ==> AcceptedBy(articles, users, recs[k])
    requires i < |recs| && LastUnder(recs, row, id, i)
    ensures var r := CommentFold(articles, users, acc, recs, row);
            r.Returned? && id in r.value.table && r.value.table[id] == recs[i].fields
    decreases |recs|
  {
    var rec, rest := recs[0], recs[1..];
    QuietCommentRow(articles, users, acc, rec, row, id);
    assert forall k :: 0 <= k < |rest| ==> rest[k] == recs[k + 1];
    var next := StepComment(articles, users, acc, rec, row(rec.line)).value;
    if i > 0 {
      LastCommentStays(articles, users, next, rest, row, id, i - 1);
    } else {
      QuietCommentRows(articles, users, next, rest, row, id);
    }
  }

  /** A quiet batch of comments on stored articles by stored users: all succeed, no error, each is stored
      under its id with its columns unless a later one has the same id, and no other id changes. */
  lemma QuietComments(lower: string -> string, db: Database, recs: seq<Record>, row: nat -> RowEnv, id: Id)
    requires Sound(db) && QuietRows(row)
    requires forall i :: 0 <= i < |recs| && recs[i].fields.CommentFields? ==>
               recs[i].fields.articleId in db.articles && recs[i].fields.userId in db.users
    ensures var r := RowLoop(lower, Comments, db, recs, row);
      && r.Returned? && r.value.1 == Tally(|recs|, 0, [])
      && (forall i :: 0 <= i < |recs| && LastUnder(recs, row, id, i) ==>
            id in r.value.0.comments && r.value.0.comments[id] == recs[i].fields)
      && (NoneUnder(recs, row, id) ==> SameComment(db.comments, r.value.0.comments, id))
  {
    var articles, users, acc := db.articles.Keys, db.users.Keys, CommentAcc(db.comments, ZERO);
    QuietCommentRows(articles, users, acc, recs, row, id);
    forall i | 0 <= i < |recs| && LastUnder(recs, row, id, i)
      ensures var t := CommentFold(articles, users, acc, recs, row).value.table;
              id in t && t[id] == recs[i].fields
    {
      LastCommentStays(articles, users, acc, recs, row, id, i);
    }
  }

  // ---------------------------------------------------------------------------------------
  // Files
  // ---------------------------------------------------------------------------------------

  /** Records that nothing in the batch or the tables speaks against. */
  ghost predicate Clean(lower: string -> string, resource: Resource, db: Database, recs: seq<Record>) {
    match resource
    case Users => forall i, j :: 0 <= i < j < |recs| ==> lower(recs[i].key) != lower(recs[j].key)
    case Articles =>
      && (forall i, j :: 0 <= i < j < |recs| ==> recs[i].key != recs[j].key)
      && (forall i :: 0 <= i < |recs| && recs[i].fields.ArticleFields? ==> recs[i].fields.authorId in db.users)
    case Comments =>
      forall i :: 0 <= i < |recs| && recs[i].fields.CommentFields? ==>
        recs[i].fields.articleId in db.articles && recs[i].fields.userId in db.users
  }

  lemma CleanLoop(lower: string -> string, resource: Resource, db: Database, recs: seq<Record>, row: nat -> RowEnv)
    requires Sound(db) && QuietRows(row) && Clean(lower, resource, db, recs)
    ensures var r := RowLoop(lower, resource, db, recs, row); r.Returned? && r.value.1 == Tally(|recs|, 0, [])
  {
    match resource
    case Users => QuietUsers(lower, db, recs, row);
    case Articles => QuietArticles(lower, db, recs, row);
    case Comments => QuietComments(lower, db, recs, row, "");
  }

  /** Every record of a batch is valid. */
  ghost predicate AllValid<D>(imp: Importer<D>, raws: seq<Raw<D>>) {
    forall i :: 0 <= i < |raws| ==> imp.validate(raws[i].data).Good?
  }

  lemma {:induction false} AllValidCounts<D>(imp: Importer<D>, raws: seq<Raw<D>>)
    requires AllValid(imp, raws)
    ensures |ValidRecords(imp, raws)| == |raws| && ValidationErrors(imp, raws) == []
  {
    if raws != [] {
      assert forall i :: 0 <= i < |raws[1..]| ==> raws[1..][i] == raws[i + 1];
      AllValidCounts(imp, raws[1..]);
    }
  }

  /** A quiet batch of valid, clean records: as many successes as records, no failure, no error; and the
      tables other records refer to stay. */
  lemma CleanBatch<D>(imp: Importer<D>, db: Database, raws: seq<Raw<D>>, env: Env, number: nat)
    requires Sound(db) && Quiet(env) && AllValid(imp, raws)
    requires Clean(imp.lower, imp.resource, db, ValidRecords(imp, raws))
    ensures var end := ProcessBatch(imp, db, raws, env.row, env.batch(number));
      && end.outcome == Returned(Tally(|raws|, 0, []))
      && (imp.resource != Users ==> end.db.users == db.users)
      && (imp.resource == Comments ==> end.db.articles == db.articles)
  {
    var recs := ValidRecords(imp, raws);
    AllValidCounts(imp, raws);
    CleanLoop(imp.lower, imp.resource, db, recs, env.row);
    LoopWritesOneTable(imp.lower, imp.resource, db, recs, env.row);
  }

  ghost predicate CleanBatches<D>(imp: Importer<D>, db: Database, batches: seq<seq<Entry<D>>>) {
    forall b :: 0 <= b < |batches| ==> CleanEntries(imp, db, batches[b])
  }

  /** A batch of records only, all valid and clean. */
  ghost predicate CleanEntries<D>(imp: Importer<D>, db: Database, batch: seq<Entry<D>>) {
    && (forall i :: 0 <= i < |batch| ==> batch[i].Item?)
    && AllValid(imp, RawsOf(batch))
    && Clean(imp.lower, imp.resource, db, ValidRecords(imp, RawsOf(batch)))
  }

  /** Later batches stay clean while the tables they refer to stay. */
  lemma CleanRest<D>(imp: Importer<D>, db: Database, db': Database, batches: seq<seq<Entry<D>>>)
    requires batches != [] && CleanBatches(imp, db, batches)
    requires imp.resource != Users ==> db'.users == db.users
    requires imp.resource == Comments ==> db'.articles == db.articles
    ensures CleanBatches(imp, db', batches[1..])
  {
    var rest := batches[1..];
    forall b | 0 <= b < |rest|
      ensures CleanEntries(imp, db', rest[b])
    {
      assert rest[b] == batches[b + 1];
      assert CleanEntries(imp, db, batches[b + 1]);
    }
  }

  /** `n` more successes. */
  function Plus(t: Totals, n: nat): (t': Totals) {
    Totals(t.total + n, t.processed + n, Tally(t.tally.successful + n, t.tally.failed, t.tally.errors))
  }

  lemma PlusPlus(t: Totals, a: nat, b: nat)
    ensures Plus(Plus(t, a), b) == Plus(t, a + b)
  {
  }

  /** What a clean batch adds. */
  lemma CleanAdds<D>(t: Totals, batch: seq<Entry<D>>)
    requires forall i :: 0 <= i < |batch| ==> batch[i].Item?
    ensures AddBatch(t, batch, Tally(|batch|, 0, [])) == Plus(t, |batch|)
  {
    ItemsOnly(batch);
    assert t.tally.errors + [] + [] == t.tally.errors;
  }

  /** The first of clean batches, and what is left. */
  lemma CleanHead<D>(imp: Importer<D>, pace: Pace, db: Database, t: Totals, batches: seq<seq<Entry<D>>>, number: nat,
                     env: Env) returns (db': Database)
    requires Sound(db) && Quiet(env) && batches != [] && CleanBatches(imp, db, batches)
    ensures Sound(db') && CleanBatches(imp, db', batches[1..])
    ensures RunBatches(imp, pace, db, t, batches, number, env)
         == RunBatches(imp, pace, db', Plus(t, |batches[0]|), batches[1..], number + 1, env)
  {
    var first := batches[0];
    assert CleanEntries(imp, db, first);
    RunHead(imp, pace, db, t, batches, number, env);
    ItemsOnly(first);
    CleanBatch(imp, db, RawsOf(first), env, number);
    CleanAdds(t, first);
    db' := ProcessBatch(imp, db, RawsOf(first), env.row, env.batch(number)).db;
    assert env.batch(number).progress.None?;
    CleanRest(imp, db, db', batches);
  }

  /** A run ends with certain totals. */
  predicate RunsTo<D>(imp: Importer<D>, pace: Pace, db: Database, t: Totals, batches: seq<seq<Entry<D>>>, number: nat,
                      env: Env, end: Totals)
    requires UniqueKeys(db.users) && UniqueKeys(db.articles)
  {
    RunBatches(imp, pace, db, t, batches, number, env).outcome == Returned(end)
  }

  lemma RunsToAfterHead<D>(imp: Importer<D>, pace: Pace, db: Database, t: Totals, batches: seq<seq<Entry<D>>>,
                           number: nat, env: Env, db': Database, end: Totals)
    requires Sound(db) && Sound(db') && batches != []
    requires RunBatches(imp, pace, db, t, batches, number, env)
          == RunBatches(imp, pace, db', Plus(t, |batches[0]|), batches[1..], number + 1, env)
    requires RunsTo(imp, pace, db', Plus(t, |batches[0]|), batches[1..], number + 1, env, end)
    ensures RunsTo(imp, pace, db, t, batches, number, env, end)
  {
  }

  lemma {:induction false} CleanRun<D>(imp: Importer<D>, pace: Pace, db: Database, t: Totals,
                                       batches: seq<seq<Entry<D>>>, number: nat, env: Env)
    requires Sound(db) && Quiet(env) && CleanBatches(imp, db, batches)
    ensures RunsTo(imp, pace, db, t, batches, number, env, Plus(t, SizeOf(batches)))
    decreases |batches|
  {
    if batches == [] {
      assert Plus(t, 0) == t;
    } else {
      var n, rest := |batches[0]|, batches[1..];
      var db' := CleanHead(imp, pace, db, t, batches, number, env);
      CleanRun(imp, pace, db', Plus(t, n), rest, number + 1, env);
      PlusPlus(t, n, SizeOf(rest));
      assert SizeOf(batches) == n + SizeOf(rest);
      RunsToAfterHead(imp, pace, db, t, batches, number, env, db', Plus(t, SizeOf(batches)));
    }
  }

  /** What a file loop returns against the full run: the same throw, or the same five counters and the
      first 100 of the full run's errors. */
  lemma CappedMeans(r: Result<Counts>, full: Result<Totals>)
    ensures Capped(r, full) <==>
      if full.Thrown? then r == Thrown(full.message)
      else
        var all := full.value.tally.errors;
        r == Returned(Counts(full.value.total, full.value.processed, full.value.tally.successful,
                             full.value.tally.failed, 0, if |all| <= 100 then all else all[..100]))
  {
  }

  /** A quiet file of valid records that are clean batch by batch ends with as many successes as records,
      no failure, nothing skipped and no error, in each of the three loops. */
  lemma CleanFile<D>(imp: Importer<D>, pace: Pace, db: Database, entries: seq<Entry<D>>, size: nat, env: Env,
                     r: Result<Counts>)
    requires Sound(db) && size >= 1 && Quiet(env) && CleanBatches(imp, db, Chunks(entries, size))
    requires Capped(r, RunBatches(imp, pace, db, NOTHING, Chunks(entries, size), 1, env).outcome)
    ensures r == Returned(Counts(|entries|, |entries|, |entries|, 0, 0, []))
  {
    CleanRun(imp, pace, db, NOTHING, Chunks(entries, size), 1, env);
    ChunkSizes(entries, size);
    assert Plus(NOTHING, |entries|) == Totals(|entries|, |entries|, Tally(|entries|, 0, []));
    CappedMeans(r, RunBatches(imp, pace, db, NOTHING, Chunks(entries, size), 1, env).outcome);
  }

  /** The counters of any file under any faults, exactly: successes are the rows saved, failures all other
      outcomes; the errors are the first 100 of all that arise. */
  lemma FileOutcome<D>(imp: Importer<D>, pace: Pace, db: Database, entries: seq<Entry<D>>, size: nat, env: Env,
                       r: Result<Counts>)
    requires Sound(db) && size >= 1
    requires Capped(r, RunBatches(imp, pace, db, NOTHING, Chunks(entries, size), 1, env).outcome)
    ensures r.Returned? ==>
      var batches := Chunks(entries, size);
      var saved, all := RunSaved(imp, db, batches, 1, env), RunErrors(imp, db, batches, 1, env);
      && r.value.total == |entries|
      && r.value.successful == saved
      && r.value.failed == r.value.processed - saved + |BrokenErrors(entries)| + RunExtra(imp, db, batches, 1, env)
      && r.value.skipped == 0
      && r.value.errors == (if |all| <= 100 then all else all[..100])
  {
    var batches := Chunks(entries, size);
    FileCounts(imp, pace, db, NOTHING, batches, 1, env);
    RunOutcome(imp, pace, db, NOTHING, batches, 1, env);
    ChunkSizes(entries, size);
    CappedMeans(r, RunBatches(imp, pace, db, NOTHING, batches, 1, env).outcome);
    assert NOTHING.tally.errors + RunErrors(imp, db, batches, 1, env) == RunErrors(imp, db, batches, 1, env);
  }

  /** Progress is reported after every batch of a JSON file and after every tenth of the others. */
  lemma PaceIs(number: nat)
    ensures EveryBatch.Due(number)
    ensures EveryTenth.Due(number) <==> exists tens :: number == 10 * tens
  {
    if EveryTenth.Due(number) {
      assert number == 10 * (number / 10);
    }
  }
}
