/** What comes of each row and of each batch, said without the folds: which rows are refused and why,
    how many are saved, what is counted, and what a batch without faults leaves. */
module BatchResults {
  import opened Wrappers
  import opened Upserts
  import opened Imports
  import opened Reimport

  // ---------------------------------------------------------------------------------------
  // Why a row is refused
  // ---------------------------------------------------------------------------------------

  /** There is a duplicate-in-file error for a line. */
  predicate ToldRepeat(errors: seq<JobError>, line: nat) {
    exists k :: 0 <= k < |errors| && errors[k].row == line && errors[k].reason.DuplicateInFile?
  }

  /** There is a missing-reference error for a line. */
  predicate ToldMissing(errors: seq<JobError>, line: nat) {
    exists k :: 0 <= k < |errors| && errors[k].row == line && errors[k].reason.MissingReference?
  }

  lemma ToldSnoc(errors: seq<JobError>, e: JobError, line: nat)
    ensures ToldRepeat(errors + [e], line) <==>
              ToldRepeat(errors, line) || (e.row == line && e.reason.DuplicateInFile?)
    ensures ToldMissing(errors + [e], line) <==>
              ToldMissing(errors, line) || (e.row == line && e.reason.MissingReference?)
  {
    var all := errors + [e];
    assert all[|errors|] == e;
    assert forall k :: 0 <= k < |errors| ==> all[k] == errors[k];
  }

  /** A row adds at most one error, of its own line, and which refusals are its error. */
  lemma StepRefuses(kind: Kind, view: Table, acc: Acc, rec: Record, env: RowEnv, line: nat)
    requires UniqueKeys(view)
    ensures var r := StepRow(kind, view, acc, rec, env);
      var repeat := kind.canon(rec.key) in acc.seen;
      r.Returned? ==>
        && r.value.seen.Keys == acc.seen.Keys + {kind.canon(rec.key)}
        && (ToldRepeat(r.value.tally.errors, line) <==>
              ToldRepeat(acc.tally.errors, line) || (rec.line == line && repeat))
        && (ToldMissing(r.value.tally.errors, line) <==>
              ToldMissing(acc.tally.errors, line) || (rec.line == line && !repeat && !kind.Accepts(rec)))
  {
    var r := StepRow(kind, view, acc, rec, env);
    if r.Returned? && r.value.tally.errors != acc.tally.errors {
      var e := r.value.tally.errors[|acc.tally.errors|];
      assert r.value.tally.errors == acc.tally.errors + [e];
      ToldSnoc(acc.tally.errors, e, line);
    }
  }

  lemma {:induction false} FoldRefuses(kind: Kind, view: Table, acc: Acc, recs: seq<Record>, n: nat,
                                       env: nat -> RowEnv, j: nat)
    requires UniqueKeys(view) && n <= |recs| && j < |recs| && DistinctLines(recs)
    requires acc.seen.Keys == CanonKeys(kind, recs, n)
    ensures var r := FastFold(kind, view, acc, recs[n..], env);
      var line := recs[j].line;
      r.Returned? ==>
        && (ToldRepeat(r.value.tally.errors, line) <==>
              ToldRepeat(acc.tally.errors, line) || (n <= j && !FirstUnder(kind, recs, j)))
        && (ToldMissing(r.value.tally.errors, line) <==>
              ToldMissing(acc.tally.errors, line)
              || (n <= j && FirstUnder(kind, recs, j) && !kind.Accepts(recs[j])))
    decreases |recs| - n
  {
    if n == |recs| {
      assert recs[n..] == [];
    } else {
      FastFoldFrom(kind, view, acc, recs, n, env);
      StepRefuses(kind, view, acc, recs[n], env(recs[n].line), recs[j].line);
      var r := StepRow(kind, view, acc, recs[n], env(recs[n].line));
      assert recs[n].line == recs[j].line <==> n == j;
      if r.Returned? {
        CanonKeysNext(kind, recs, n);
        FoldRefuses(kind, view, r.value, recs, n + 1, env, j);
      }
    }
  }

  /** Whole batches, for either kind. */
  lemma BatchRefuses(kind: Kind, t: Table, recs: seq<Record>, env: nat -> RowEnv, j: nat)
    requires UniqueKeys(t) && j < |recs| && DistinctLines(recs)
    ensures var r := FastFold(kind, t, Acc(t, map[], ZERO), recs, env);
      var line := recs[j].line;
      r.Returned? ==>
        && (ToldRepeat(r.value.tally.errors, line) <==> !FirstUnder(kind, recs, j))
        && (ToldMissing(r.value.tally.errors, line) <==> FirstUnder(kind, recs, j) && !kind.Accepts(recs[j]))
  {
    assert recs[0..] == recs;
    FoldRefuses(kind, t, Acc(t, map[], ZERO), recs, 0, env, j);
  }

  /** Under any faults, a user row of a batch is refused as a repeat if and only if an earlier row has the
      same email but for case, and never for a reference. */
  lemma UserRefusals(lower: string -> string, db: Database, recs: seq<Record>, row: nat -> RowEnv, j: nat)
    requires Sound(db) && j < |recs| && DistinctLines(recs)
    ensures var r := RowLoop(lower, Users, db, recs, row);
      r.Returned? ==>
        && (ToldRepeat(r.value.1.errors, recs[j].line) <==>
              exists i :: 0 <= i < j && lower(recs[i].key) == lower(recs[j].key))
        && !ToldMissing(r.value.1.errors, recs[j].line)
  {
    BatchRefuses(UserKind(lower), db.users, recs, row, j);
  }

  /** An article row is refused as a repeat if and only if an earlier row has the same slug, and for its
      author if and only if it is no repeat and names one that is not a stored user. */
  lemma ArticleRefusals(lower: string -> string, db: Database, recs: seq<Record>, row: nat -> RowEnv, j: nat)
    requires Sound(db) && j < |recs| && DistinctLines(recs)
    ensures var r := RowLoop(lower, Articles, db, recs, row);
      var repeat := exists i :: 0 <= i < j && recs[i].key == recs[j].key;
      r.Returned? ==>
        && (ToldRepeat(r.value.1.errors, recs[j].line) <==> repeat)
        && (ToldMissing(r.value.1.errors, recs[j].line) <==>
              !repeat && recs[j].fields.ArticleFields? && recs[j].fields.authorId !in db.users)
  {
    BatchRefuses(ArticleKind(db.users.Keys), db.articles, recs, row, j);
  }

  /** What the refusals of an article batch say. */
  lemma ArticleErrors(lower: string -> string, db: Database, recs: seq<Record>, row: nat -> RowEnv, k: nat)
    requires Sound(db)
    ensures var r := RowLoop(lower, Articles, db, recs, row);
      r.Returned? && k < |r.value.1.errors| && r.value.1.errors[k].reason.DuplicateInFile? ==>
        exists i, j :: 0 <= i < j < |recs| && recs[i].key == recs[j].key
          && (forall h :: 0 <= h < i ==> recs[h].key != recs[i].key)
          && r.value.1.errors[k] == JobError(recs[j].line, Some("slug"), DuplicateInFile(recs[j].key, recs[i].line))
  {
    var kind, t := ArticleKind(db.users.Keys), db.articles;
    BatchTells(kind, t, recs, row, k);
    var r := FastFold(kind, t, Acc(t, map[], ZERO), recs, row);
    if r.Returned? && k < |r.value.tally.errors| && r.value.tally.errors[k].reason.DuplicateInFile? {
      var e := r.value.tally.errors[k];
      var i, j :| 0 <= i < j < |recs| && FirstUnder(kind, recs, i) && kind.canon(recs[i].key) == kind.canon(recs[j].key)
        && e == JobError(recs[j].line, Some(kind.keyField), DuplicateInFile(recs[j].key, recs[i].line));
      assert recs[i].key == recs[j].key;
    }
  }

  /** What the refusals of a user batch say. */
  lemma UserErrors(lower: string -> string, db: Database, recs: seq<Record>, row: nat -> RowEnv, k: nat)
    requires Sound(db)
    ensures var r := RowLoop(lower, Users, db, recs, row);
      r.Returned? && k < |r.value.1.errors| && r.value.1.errors[k].reason.DuplicateInFile? ==>
        exists i, j :: 0 <= i < j < |recs| && lower(recs[i].key) == lower(recs[j].key)
          && (forall h :: 0 <= h < i ==> lower(recs[h].key) != lower(recs[i].key))
          && r.value.1.errors[k] == JobError(recs[j].line, Some("email"), DuplicateInFile(recs[j].key, recs[i].line))
  {
    var kind, t := UserKind(lower), db.users;
    BatchTells(kind, t, recs, row, k);
    var r := FastFold(kind, t, Acc(t, map[], ZERO), recs, row);
    if r.Returned? && k < |r.value.tally.errors| && r.value.tally.errors[k].reason.DuplicateInFile? {
      var e := r.value.tally.errors[k];
      var i, j :| 0 <= i < j < |recs| && FirstUnder(kind, recs, i) && kind.canon(recs[i].key) == kind.canon(recs[j].key)
        && e == JobError(recs[j].line, Some(kind.keyField), DuplicateInFile(recs[j].key, recs[i].line));
      assert lower(recs[i].key) == lower(recs[j].key);
    }
  }

  lemma BatchTells(kind: Kind, t: Table, recs: seq<Record>, env: nat -> RowEnv, k: nat)
    requires UniqueKeys(t)
    ensures var r := FastFold(kind, t, Acc(t, map[], ZERO), recs, env);
      r.Returned? && k < |r.value.tally.errors| ==> TellsFirstRow(kind, recs, r.value.tally.errors[k])
  {
    assert recs[0..] == recs;
    RepeatErrorsNameTheFirstRow(kind, t, Acc(t, map[], ZERO), recs, 0, env);
  }

  /** A message holds a text somewhere. */
  ghost predicate Holds(message: string, part: string) {
    exists before, after :: message == before + part + after
  }

  lemma IncludedIsHeld(message: string, part: string, i: nat)
    requires i <= |message| && part <= message[i..]
    ensures Holds(message, part)
  {
    var before, after := message[..i], message[i..][|part|..];
    assert message[i..] == part + after;
    assert message == before + part + after;
  }

  lemma HeldIsIncluded(before: string, part: string, after: string)
    ensures Includes(before + part + after, part)
  {
    var message := before + part + after;
    assert message[|before|..] == part + after;
  }

  lemma IncludesIsHolds(message: string, part: string)
    ensures Includes(message, part) <==> Holds(message, part)
  {
    if Includes(message, part) {
      var i :| 0 <= i <= |message| && part <= message[i..];
      IncludedIsHeld(message, part, i);
    }
    if Holds(message, part) {
      var before, after :| message == before + part + after;
      HeldIsIncluded(before, part, after);
    }
  }

  /** How a throw inside a row's savepoint block is reported. */
  lemma UserRowError(lower: string -> string, rec: Record, message: string)
    ensures UserKind(lower).RowError(rec, message) ==
      if Holds(message, "duplicate key") || Holds(message, "unique constraint")
      then JobError(rec.line, Some("email"), DuplicateKey(rec.key))
      else if Holds(message, "invalid input value for enum user_role_enum")
      then JobError(rec.line, Some("role"), InvalidEnum)
      else JobError(rec.line, None, DatabaseError(message))
  {
    IncludesIsHolds(message, "duplicate key");
    IncludesIsHolds(message, "unique constraint");
    IncludesIsHolds(message, "invalid input value for enum user_role_enum");
  }

  lemma ArticleRowError(users: set<Id>, rec: Record, message: string)
    ensures ArticleKind(users).RowError(rec, message) ==
      if Holds(message, "duplicate key") || Holds(message, "unique constraint")
      then JobError(rec.line, Some("slug"), DuplicateKey(rec.key))
      else if Holds(message, "invalid input value for enum article_status_enum")
      then JobError(rec.line, Some("status"), InvalidEnum)
      else JobError(rec.line, None, DatabaseError(message))
  {
    IncludesIsHolds(message, "duplicate key");
    IncludesIsHolds(message, "unique constraint");
    IncludesIsHolds(message, "invalid input value for enum article_status_enum");
  }

  /** How a missing author is reported. */
  lemma ArticleReferenceError(users: set<Id>, rec: Record)
    requires rec.fields.ArticleFields?
    ensures ArticleKind(users).ReferenceError(rec)
         == JobError(rec.line, Some("author_id"), MissingReference(rec.fields.authorId))
  {
  }

  // ---------------------------------------------------------------------------------------
  // How many rows are saved
  // ---------------------------------------------------------------------------------------

  /** A row is saved: it is tried, its SAVEPOINT and its save go through, and no other row has its key. */
  predicate RowSaved(kind: Kind, view: Table, acc: Acc, rec: Record, env: RowEnv)
    requires UniqueKeys(view)
  {
    && kind.canon(rec.key) !in acc.seen && kind.Accepts(rec)
    && env.savepoint.None? && env.save.None?
    && forall other :: other in acc.table && acc.table[other].key == rec.key ==> other == Target(view, rec, env)
  }

  /** What a tried row's try block throws, if anything: the first of its calls to throw. */
  function TryThrows(env: RowEnv, find: bool, refused: bool): (message: Option<string>) {
    if env.savepoint.Some? then env.savepoint
    else if find && env.find.Some? then env.find
    else if env.save.Some? then env.save
    else if refused then Some("duplicate key value violates unique constraint")
    else env.release
  }

  /** A row changes the table if and only if it is saved and its RELEASE goes through, and then it is
      stored under its target; it counts as a success if and only if it is saved, and as a failure if
      it is not, or its RELEASE throws. A tried row's throw is its error; if the rollback throws too,
      that ends the loop. */
  lemma StepOutcome(kind: Kind, view: Table, acc: Acc, rec: Record, env: RowEnv)
    requires UniqueKeys(view)
    ensures var r := StepRow(kind, view, acc, rec, env);
      var saved := RowSaved(kind, view, acc, rec, env);
      r.Returned? ==>
        && r.value.table == (if saved && env.release.None?
                             then acc.table[Target(view, rec, env) := Row(rec.key, rec.fields)] else acc.table)
        && r.value.tally.successful == acc.tally.successful + (if saved then 1 else 0)
        && r.value.tally.failed == acc.tally.failed + (if saved && env.release.None? then 0 else 1)
    ensures kind.canon(rec.key) !in acc.seen && kind.Accepts(rec) ==>
      var r := StepRow(kind, view, acc, rec, env);
      var refused := exists other :: other in acc.table && acc.table[other].key == rec.key
                                     && other != Target(view, rec, env);
      var thrown := TryThrows(env, false, refused);
      if thrown.Some? && env.rollback.Some? then r == Thrown(env.rollback.value)
      else
        && r.Returned?
        && r.value.tally.errors == acc.tally.errors + if thrown.None? then [] else [kind.RowError(rec, thrown.value)]
  {
  }

  function SavedRows(kind: Kind, view: Table, acc: Acc, recs: seq<Record>, env: nat -> RowEnv): (n: nat)
    requires UniqueKeys(view)
    decreases |recs|
  {
    if recs == [] then 0
    else
      (if RowSaved(kind, view, acc, recs[0], env(recs[0].line)) then 1 else 0) +
      match StepRow(kind, view, acc, recs[0], env(recs[0].line))
      case Returned(next) => SavedRows(kind, view, next, recs[1..], env)
      case Thrown(_) => 0
  }

  lemma {:induction false} FoldSuccesses(kind: Kind, view: Table, acc: Acc, recs: seq<Record>, env: nat -> RowEnv)
    requires UniqueKeys(view)
    ensures var r := FastFold(kind, view, acc, recs, env);
      r.Returned? ==> r.value.tally.successful == acc.tally.successful + SavedRows(kind, view, acc, recs, env)
    decreases |recs|
  {
    if recs != [] {
      var r := StepRow(kind, view, acc, recs[0], env(recs[0].line));
      StepOutcome(kind, view, acc, recs[0], env(recs[0].line));
      if r.Returned? {
        FoldSuccesses(kind, view, r.value, recs[1..], env);
      }
    }
  }

  /** A comment is saved: its article and its user are stored, and its SAVEPOINT, its lookup if it has an
      id, and its save go through. */
  predicate CommentSaved(articles: set<Id>, users: set<Id>, rec: Record, env: RowEnv) {
    && AcceptedBy(articles, users, rec)
    && env.savepoint.None? && (rec.id.Some? ==> env.find.None?) && env.save.None?
  }

  function SavedComments(articles: set<Id>, users: set<Id>, recs: seq<Record>, env: nat -> RowEnv): (n: nat) {
    if recs == [] then 0
    else (if CommentSaved(articles, users, recs[0], env(recs[0].line)) then 1 else 0)
         + SavedComments(articles, users, recs[1..], env)
  }

  /** What one comment row does, under any faults: a missing article is told before a missing user; a
      saved one is stored under the id it carries without a prefix `cm_`, or else under the generated
      one, unless its RELEASE throws. */
  lemma CommentOutcome(articles: set<Id>, users: set<Id>, acc: CommentAcc, rec: Record, env: RowEnv, id: Id)
    requires if rec.id.None? then id == env.uuid
             else rec.id.value == "cm_" + id || (rec.id.value == id && !("cm_" <= id))
    ensures var r := StepComment(articles, users, acc, rec, env);
      var saved := CommentSaved(articles, users, rec, env);
      r.Returned? ==>
        && r.value.table == (if saved && env.release.None? then acc.table[id := rec.fields] else acc.table)
        && r.value.tally.successful == acc.tally.successful + (if saved then 1 else 0)
        && r.value.tally.failed == acc.tally.failed + (if saved && env.release.None? then 0 else 1)
        && (rec.fields.CommentFields? && rec.fields.articleId !in articles ==>
              r.value.tally.errors == acc.tally.errors
              + [JobError(rec.line, Some("article_id"), MissingReference(rec.fields.articleId))])
        && (rec.fields.CommentFields? && rec.fields.articleId in articles && rec.fields.userId !in users ==>
              r.value.tally.errors == acc.tally.errors
              + [JobError(rec.line, Some("user_id"), MissingReference(rec.fields.userId))])
    ensures AcceptedBy(articles, users, rec) ==>
      var r := StepComment(articles, users, acc, rec, env);
      var thrown := TryThrows(env, rec.id.Some?, false);
      if thrown.Some? && env.rollback.Some? then r == Thrown(env.rollback.value)
      else
        && r.Returned?
        && r.value.tally.errors
           == acc.tally.errors + if thrown.None? then [] else [JobError(rec.line, None, DatabaseError(thrown.value))]
  {
    assert rec.id.Some? && rec.id.value == "cm_" + id ==> rec.id.value[3..] == id;
    assert CommentTarget(rec, env) == id;
  }

  lemma {:induction false} CommentSuccesses(articles: set<Id>, users: set<Id>, acc: CommentAcc, recs: seq<Record>,
                                            env: nat -> RowEnv)
    ensures var r := CommentFold(articles, users, acc, recs, env);
      r.Returned? ==>
        r.value.tally.successful == acc.tally.successful + SavedComments(articles, users, recs, env)
    decreases |recs|
  {
    if recs != [] {
      var rec := recs[0];
      var r := StepComment(articles, users, acc, rec, env(rec.line));
      CommentOutcome(articles, users, acc, rec, env(rec.line), CommentTarget(rec, env(rec.line)));
      if r.Returned? {
        CommentSuccesses(articles, users, r.value, recs[1..], env);
      }
    }
  }

  // ---------------------------------------------------------------------------------------
  // Transactions
  // ---------------------------------------------------------------------------------------

  /** The rows a row loop saves. */
  function LoopSaved(lower: string -> string, resource: Resource, db: Database, recs: seq<Record>, row: nat -> RowEnv)
    : (n: nat)
    requires UniqueKeys(db.users) && UniqueKeys(db.articles)
  {
    match resource
    case Users => SavedRows(UserKind(lower), db.users, Acc(db.users, map[], ZERO), recs, row)
    case Articles => SavedRows(ArticleKind(db.users.Keys), db.articles, Acc(db.articles, map[], ZERO), recs, row)
    case Comments => SavedComments(db.articles.Keys, db.users.Keys, recs, row)
  }

  lemma LoopSuccesses(lower: string -> string, resource: Resource, db: Database, recs: seq<Record>, row: nat -> RowEnv)
    requires Sound(db)
    ensures var r := RowLoop(lower, resource, db, recs, row);
      r.Returned? ==> r.value.1.successful == LoopSaved(lower, resource, db, recs, row)
  {
    match resource
    case Users => FoldSuccesses(UserKind(lower), db.users, Acc(db.users, map[], ZERO), recs, row);
    case Articles =>
      FoldSuccesses(ArticleKind(db.users.Keys), db.articles, Acc(db.articles, map[], ZERO), recs, row);
    case Comments =>
      CommentSuccesses(db.articles.Keys, db.users.Keys, CommentAcc(db.comments, ZERO), recs, row);
  }

  /** A row loop writes the table of its resource alone. */
  lemma LoopWritesOneTable(lower: string -> string, resource: Resource, db: Database, recs: seq<Record>,
                           row: nat -> RowEnv)
    requires Sound(db)
    ensures var r := RowLoop(lower, resource, db, recs, row);
      r.Returned? ==>
        && (resource != Users ==> r.value.0.users == db.users)
        && (resource != Articles ==> r.value.0.articles == db.articles)
        && (resource != Comments ==> r.value.0.comments == db.comments)
  {
  }

  /** How a transaction ends, under any faults. It leaves the row loop's tables if its COMMIT goes
      through, and the tables it began with otherwise. What it returns counts the rows saved as
      successes, also when the COMMIT throws, and none when that is not reached. A throw that lands in
      the catch block adds one failure and one error with its message for each record, in order. */
  lemma TransactionOutcome(lower: string -> string, resource: Resource, db: Database, recs: seq<Record>,
                           row: nat -> RowEnv, env: BatchEnv)
    requires Sound(db)
    ensures var end := UpsertRecords(lower, resource, db, recs, row, env);
      var loop := RowLoop(lower, resource, db, recs, row);
      && (end.outcome.Thrown? <==>
            || env.begin.Some? || env.release.Some?
            || (env.rollback.Some? && (env.lookup.Some? || loop.Thrown? || env.commit.Some?)))
      && end.db == (if env.begin.None? && env.lookup.None? && loop.Returned? && env.commit.None?
                    then loop.value.0 else db)
      && (end.outcome.Returned? && env.lookup.None? && loop.Returned? ==>
            && end.outcome.value.successful == LoopSaved(lower, resource, db, recs, row)
            && end.outcome.value.failed == loop.value.1.failed + (if env.commit.Some? then |recs| else 0)
            && (env.commit.None? ==> end.outcome.value.errors == loop.value.1.errors)
            && (env.commit.Some? ==> Marked(loop.value.1.errors, recs, env.commit.value, end.outcome.value.errors)))
      && (end.outcome.Returned? && (env.lookup.Some? || loop.Thrown?) ==>
            && end.outcome.value.successful == 0 && end.outcome.value.failed == |recs|
            && Marked([], recs, if env.lookup.Some? then env.lookup.value else loop.message, end.outcome.value.errors))
  {
    LoopSuccesses(lower, resource, db, recs, row);
  }

  /** The errors kept, then one for each record. */
  predicate Marked(before: seq<JobError>, recs: seq<Record>, message: string, after: seq<JobError>) {
    && |after| == |before| + |recs| && before <= after
    && forall i :: 0 <= i < |recs| ==> after[|before| + i] == JobError(recs[i].line, None, BatchFailed(message))
  }

  // ---------------------------------------------------------------------------------------
  // Batches
  // ---------------------------------------------------------------------------------------

  /** Record `k` is the raw one at position `at[k]`, accepted by validation. */
  predicate StandAt<D>(imp: Importer<D>, raws: seq<Raw<D>>, recs: seq<Record>, at: seq<nat>) {
    && |at| == |recs|
    && (forall k :: 0 <= k < |at| ==>
          && at[k] < |raws| && recs[k].line == raws[at[k]].line
          && imp.validate(raws[at[k]].data) == Good(recs[k].id, recs[k].key, recs[k].fields))
    && (forall k, l :: 0 <= k < l < |at| ==> at[k] < at[l])
  }

  /** Positions in a list one longer at the front. */
  function Later(at: seq<nat>): (later: seq<nat>)
    ensures |later| == |at| && forall k :: 0 <= k < |at| ==> later[k] == at[k] + 1
  {
    seq(|at|, k requires 0 <= k < |at| => at[k] + 1)
  }

  /** The positions of the raw records that validation accepts. */
  function ValidAt<D>(imp: Importer<D>, raws: seq<Raw<D>>): (at: seq<nat>) {
    if raws == [] then []
    else (if imp.validate(raws[0].data).Good? then [0] else []) + Later(ValidAt(imp, raws[1..]))
  }

  lemma StandLater<D>(imp: Importer<D>, raws: seq<Raw<D>>, recs: seq<Record>, at: seq<nat>)
    requires raws != [] && StandAt(imp, raws[1..], recs, at)
    ensures StandAt(imp, raws, recs, Later(at))
  {
    assert forall k :: 0 <= k < |at| ==> raws[1..][at[k]] == raws[at[k] + 1];
  }

  lemma StandFirst<D>(imp: Importer<D>, raws: seq<Raw<D>>, first: Record, recs: seq<Record>, at: seq<nat>)
    requires raws != [] && first.line == raws[0].line
    requires imp.validate(raws[0].data) == Good(first.id, first.key, first.fields)
    requires StandAt(imp, raws, recs, at) && forall k :: 0 <= k < |at| ==> at[k] > 0
    ensures StandAt(imp, raws, [first] + recs, [0] + at)
  {
  }

  /** The valid records are the raw ones that validation accepts, in order. */
  lemma {:induction false} ValidRecordsStand<D>(imp: Importer<D>, raws: seq<Raw<D>>)
    ensures StandAt(imp, raws, ValidRecords(imp, raws), ValidAt(imp, raws))
  {
    if raws != [] {
      var rest, at := ValidRecords(imp, raws[1..]), ValidAt(imp, raws[1..]);
      ValidRecordsStand(imp, raws[1..]);
      StandLater(imp, raws, rest, at);
      if imp.validate(raws[0].data).Good? {
        StandFirst(imp, raws, ValidRecords(imp, raws)[0], rest, Later(at));
      }
    }
  }

  /** None is left out. */
  lemma {:induction false} NoneLeftOut<D>(imp: Importer<D>, raws: seq<Raw<D>>, i: nat)
    requires i < |raws| && imp.validate(raws[i].data).Good?
    ensures i in ValidAt(imp, raws)
  {
    if i > 0 {
      var at := ValidAt(imp, raws[1..]);
      NoneLeftOut(imp, raws[1..], i - 1);
      var k :| 0 <= k < |at| && at[k] == i - 1;
      assert Later(at)[k] == i;
    }
  }

  /** The valid records are the raw ones that validation accepts, all of them and in order. */
  lemma ValidRecordsAre<D>(imp: Importer<D>, raws: seq<Raw<D>>) returns (at: seq<nat>)
    ensures StandAt(imp, raws, ValidRecords(imp, raws), at)
    ensures forall i :: 0 <= i < |raws| && imp.validate(raws[i].data).Good? ==> i in at
  {
    at := ValidAt(imp, raws);
    ValidRecordsStand(imp, raws);
    forall i | 0 <= i < |raws| && imp.validate(raws[i].data).Good?
      ensures i in at
    {
      NoneLeftOut(imp, raws, i);
    }
  }

  /** The validation errors are those of the raw records it refuses, field by field. */
  lemma {:induction false} ValidationErrorsAre<D>(imp: Importer<D>, raws: seq<Raw<D>>, e: JobError)
    ensures e in ValidationErrors(imp, raws) <==>
      exists i, k :: 0 <= i < |raws| && imp.validate(raws[i].data).Wrong?
        && 0 <= k < |imp.validate(raws[i].data).errors|
        && e == JobError(raws[i].line, Some(imp.validate(raws[i].data).errors[k].field),
                         Invalid(imp.validate(raws[i].data).errors[k].message))
  {
    if raws != [] {
      var rest := raws[1..];
      ValidationErrorsAre(imp, rest, e);
      assert raws == [raws[0]] + rest;
      assert forall i :: 1 <= i < |raws| ==> raws[i] == rest[i - 1];
      var head := ValidationErrors(imp, raws)[..|ValidationErrors(imp, raws)| - |ValidationErrors(imp, rest)|];
      assert ValidationErrors(imp, raws) == head + ValidationErrors(imp, rest);
    }
  }

  /** The rows a batch saves: those of its transaction, if it has one and that gets to its COMMIT. */
  function BatchSaved<D>(imp: Importer<D>, db: Database, raws: seq<Raw<D>>, row: nat -> RowEnv, env: BatchEnv)
    : (n: nat)
    requires UniqueKeys(db.users) && UniqueKeys(db.articles)
  {
    var recs := ValidRecords(imp, raws);
    if recs != [] && ReachesCommit(imp.lower, imp.resource, db, recs, row, env)
    then LoopSaved(imp.lower, imp.resource, db, recs, row) else 0
  }

  /** What a batch returns, under any faults: as many successes as rows saved; as many failures as records
      that are invalid and as its transaction counts; all validation errors, then all the errors of
      the transaction. Without a valid record there is no transaction, and its tables are the
      batch's. */
  lemma BatchOutcome<D>(imp: Importer<D>, db: Database, raws: seq<Raw<D>>, row: nat -> RowEnv, env: BatchEnv)
    requires Sound(db)
    ensures var recs := ValidRecords(imp, raws);
      var end := ProcessBatch(imp, db, raws, row, env);
      var upserted := UpsertRecords(imp.lower, imp.resource, db, recs, row, env);
      && end.db == (if recs == [] then db else upserted.db)
      && (end.outcome.Thrown? <==> recs != [] && upserted.outcome.Thrown?)
      && (end.outcome.Returned? ==>
            && end.outcome.value.successful == BatchSaved(imp, db, raws, row, env)
            && end.outcome.value.failed
               == |raws| - |recs| + (if recs == [] then 0 else upserted.outcome.value.failed)
            && end.outcome.value.errors
               == ValidationErrors(imp, raws) + (if recs == [] then [] else upserted.outcome.value.errors))
  {
    TransactionOutcome(imp.lower, imp.resource, db, ValidRecords(imp, raws), row, env);
  }

  /** The errors of the unparsable lines of a batch. */
  lemma {:induction false} BrokenErrorsAre<D>(batch: seq<Entry<D>>, e: JobError)
    ensures e in BrokenErrors(batch) <==>
      exists i :: 0 <= i < |batch| && batch[i].Broken?
                  && e == JobError(batch[i].line, None, Unparsable(batch[i].message))
  {
    if batch != [] {
      BrokenErrorsAre(batch[1..], e);
      assert batch == [batch[0]] + batch[1..];
      assert forall i :: 1 <= i < |batch| ==> batch[i] == batch[1..][i - 1];
    }
  }

  // ---------------------------------------------------------------------------------------
  // Whole files
  // ---------------------------------------------------------------------------------------

  /** The rows a run saves, batch by batch on what the ones before it left. */
  function RunSaved<D>(imp: Importer<D>, db: Database, batches: seq<seq<Entry<D>>>, number: nat, env: Env): (n: nat)
    requires UniqueKeys(db.users) && UniqueKeys(db.articles)
    decreases |batches|
  {
    if batches == [] then 0
    else
      var raws := RawsOf(batches[0]);
      BatchKeepsKeys(imp, db, raws, env.row, env.batch(number));
      var after := ProcessBatch(imp, db, raws, env.row, env.batch(number)).db;
      BatchSaved(imp, db, raws, env.row, env.batch(number)) + RunSaved(imp, after, batches[1..], number + 1, env)
  }

  /** All errors of a run: for each batch the unparsable lines, then what the batch returns. */
  function RunErrors<D>(imp: Importer<D>, db: Database, batches: seq<seq<Entry<D>>>, number: nat, env: Env)
    : (errors: seq<JobError>)
    requires UniqueKeys(db.users) && UniqueKeys(db.articles)
    decreases |batches|
  {
    if batches == [] then []
    else
      var raws := RawsOf(batches[0]);
      BatchKeepsKeys(imp, db, raws, env.row, env.batch(number));
      var end := ProcessBatch(imp, db, raws, env.row, env.batch(number));
      BrokenErrors(batches[0]) + (if end.outcome.Returned? then end.outcome.value.errors else [])
      + RunErrors(imp, end.db, batches[1..], number + 1, env)
  }

  lemma {:induction false} RunSuccesses<D>(imp: Importer<D>, pace: Pace, db: Database, t: Totals,
                                           batches: seq<seq<Entry<D>>>, number: nat, env: Env)
    requires Sound(db)
    ensures var r := RunBatches(imp, pace, db, t, batches, number, env).outcome;
      r.Returned? ==>
        r.value.tally.successful == t.tally.successful + RunSaved(imp, db, batches, number, env)
    decreases |batches|
  {
    if batches != [] {
      RunHead(imp, pace, db, t, batches, number, env);
      BatchOutcome(imp, db, RawsOf(batches[0]), env.row, env.batch(number));
      var end := ProcessBatch(imp, db, RawsOf(batches[0]), env.row, env.batch(number));
      if end.outcome.Returned? {
        RunSuccesses(imp, pace, end.db, AddBatch(t, batches[0], end.outcome.value), batches[1..], number + 1, env);
      }
    }
  }

  lemma {:induction false} RunErrorList<D>(imp: Importer<D>, pace: Pace, db: Database, t: Totals,
                                           batches: seq<seq<Entry<D>>>, number: nat, env: Env)
    requires Sound(db)
    ensures var r := RunBatches(imp, pace, db, t, batches, number, env).outcome;
      r.Returned? ==> r.value.tally.errors == t.tally.errors + RunErrors(imp, db, batches, number, env)
    decreases |batches|
  {
    if batches != [] {
      RunHead(imp, pace, db, t, batches, number, env);
      var end := ProcessBatch(imp, db, RawsOf(batches[0]), env.row, env.batch(number));
      if end.outcome.Returned? {
        RunErrorList(imp, pace, end.db, AddBatch(t, batches[0], end.outcome.value), batches[1..], number + 1, env);
        ThreeParts(t.tally.errors, BrokenErrors(batches[0]), end.outcome.value.errors,
                   RunErrors(imp, end.db, batches[1..], number + 1, env));
      }
    }
  }

  lemma ThreeParts(a: seq<JobError>, b: seq<JobError>, c: seq<JobError>, d: seq<JobError>)
    ensures (a + b + c) + d == a + (b + c + d)
  {
  }

  /** What a run returns, exactly, under any faults: as many successes as rows saved; every other
      processed record, every unparsable line and every outcome counted again as a failure; and all
      errors in order. */
  lemma RunOutcome<D>(imp: Importer<D>, pace: Pace, db: Database, t: Totals, batches: seq<seq<Entry<D>>>, number: nat,
                      env: Env)
    requires Sound(db)
    ensures var r := RunBatches(imp, pace, db, t, batches, number, env).outcome;
      r.Returned? ==>
        var processed := r.value.processed - t.processed;
        && r.value.tally.successful == t.tally.successful + RunSaved(imp, db, batches, number, env)
        && r.value.tally.failed - t.tally.failed
           == processed - RunSaved(imp, db, batches, number, env) + BrokenIn(batches)
              + RunExtra(imp, db, batches, number, env)
        && r.value.tally.errors == t.tally.errors + RunErrors(imp, db, batches, number, env)
  {
    FileCounts(imp, pace, db, t, batches, number, env);
    RunSuccesses(imp, pace, db, t, batches, number, env);
    RunErrorList(imp, pace, db, t, batches, number, env);
  }
}
