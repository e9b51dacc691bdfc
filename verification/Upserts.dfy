/** Row-by-row meaning of a batch upsert into a table with a unique key: the fast form of
    `imports.service.ts`, which looks keys up once before its loop, and the simple form, which
    looks at the current table for every row. */
module Upserts {
  import opened Wrappers

  type Id = string

  /** The stored columns of a row besides its id, its unique key and its timestamps. */
  datatype Fields =
    | UserFields(name: string, role: string, active: bool)
    | ArticleFields(title: string, body: string, authorId: Id, tags: seq<string>, status: string,
                    publishedAt: Option<int>)
    | CommentFields(articleId: Id, userId: Id, body: string)

  datatype Row = Row(key: string, fields: Fields)

  type Table = map<Id, Row>

  predicate UniqueKeys(t: Table) {
    forall a, b :: a in t && b in t && t[a].key == t[b].key ==> a == b
  }

  predicate HasKey(t: Table, key: string) {
    exists id :: id in t && t[id].key == key
  }

  function IdOf(t: Table, key: string): (id: Id)
    requires UniqueKeys(t) && HasKey(t, key)
    ensures id in t && t[id].key == key
  {
    var id :| id in t && t[id].key == key; id
  }

  /** A validated record: its line, the id it supplies if any, its key (an email or a slug; unused
      for comments) and the columns it carries. */
  datatype Record = Record(line: nat, id: Option<Id>, key: string, fields: Fields)

  /** What the database and the id generator do while one row is handled: any of these calls may
      throw, with any message. */
  datatype RowEnv = RowEnv(uuid: Id, savepoint: Option<string>, find: Option<string>, save: Option<string>,
                           release: Option<string>, rollback: Option<string>)

  function NewId(rec: Record, env: RowEnv): (id: Id) {
    if rec.id.Some? then rec.id.value else env.uuid
  }

  // ---------------------------------------------------------------------------------------
  // Errors
  // ---------------------------------------------------------------------------------------

  datatype Reason =
    | Unparsable(message: string)
    | Invalid(message: string)
    | DuplicateInFile(key: string, firstRow: nat)
    | MissingReference(id: Id)
    | DuplicateKey(key: string)
    | InvalidEnum
    | DatabaseError(message: string)
    | BatchFailed(message: string)

  datatype JobError = JobError(row: nat, field: Option<string>, reason: Reason)

  const UNIQUE_VIOLATION := "duplicate key value violates unique constraint"

  /** `message.includes(part)`. */
  predicate Includes(message: string, part: string) {
    exists i :: 0 <= i <= |message| && part <= message[i..]
  }

  // ---------------------------------------------------------------------------------------
  // Counting
  // ---------------------------------------------------------------------------------------

  datatype Tally = Tally(successful: nat, failed: nat, errors: seq<JobError>) {
    function Win(): Tally {
      this.(successful := successful + 1)
    }

    function Lose(e: JobError): Tally {
      this.(failed := failed + 1, errors := errors + [e])
    }
  }

  const ZERO := Tally(0, 0, [])

  /** How one row's savepoint block ends. `Undone`: the release threw after the row had been counted
      as successful. `Escaped`: the catch block's own rollback threw. */
  datatype RowEnd<T> = Kept(table: T) | Rejected(message: string) | Undone(message: string) | Escaped(message: string)

  function Recovered<T>(end: RowEnd<T>, env: RowEnv): (r: RowEnd<T>) {
    if env.rollback.Some? then Escaped(env.rollback.value) else end
  }

  /** SAVEPOINT, the lookup if there is one, the save, RELEASE; on any throw ROLLBACK TO. */
  function UnderSavepoint<T>(find: Option<string>, saved: Result<T>, env: RowEnv): (r: RowEnd<T>) {
    if env.savepoint.Some? then Recovered(Rejected(env.savepoint.value), env)
    else if find.Some? then Recovered(Rejected(find.value), env)
    else if env.save.Some? then Recovered(Rejected(env.save.value), env)
    else if saved.Thrown? then Recovered(Rejected(saved.message), env)
    else if env.release.Some? then Recovered(Undone(env.release.value), env)
    else Kept(saved.value)
  }

  // ---------------------------------------------------------------------------------------
  // Users and articles
  // ---------------------------------------------------------------------------------------

  /** What differs between users and articles: the key's field and the form under which repeats are
      recognised, the reference a row must satisfy, and how database messages are read. */
  datatype Kind = Kind(keyField: string, canon: string -> string,
                       refField: string, refOf: Fields -> Option<Id>, known: set<Id>,
                       enumMarker: string, enumField: string)
  {
    predicate Accepts(rec: Record) {
      refOf(rec.fields).None? || refOf(rec.fields).value in known
    }

    function RepeatError(rec: Record, firstRow: nat): JobError {
      JobError(rec.line, Some(keyField), DuplicateInFile(rec.key, firstRow))
    }

    function ReferenceError(rec: Record): JobError {
      JobError(rec.line, Some(refField),
          MissingReference(if refOf(rec.fields).Some? then refOf(rec.fields).value else ""))
    }

    function RowError(rec: Record, message: string): JobError {
      if Includes(message, "duplicate key") || Includes(message, "unique constraint")
      then JobError(rec.line, Some(keyField), DuplicateKey(rec.key))
      else if Includes(message, enumMarker) then JobError(rec.line, Some(enumField), InvalidEnum)
      else JobError(rec.line, None, DatabaseError(message))
    }
  }

  function NoReference(f: Fields): (id: Option<Id>) {
    None
  }

  function AuthorOf(f: Fields): (id: Option<Id>) {
    if f.ArticleFields? then Some(f.authorId) else None
  }

  function UserKind(lower: string -> string): (kind: Kind) {
    Kind("email", lower, "", NoReference, {}, "invalid input value for enum user_role_enum", "role")
  }

  function Identity(s: string): (r: string) {
    s
  }

  function ArticleKind(userIds: set<Id>): (kind: Kind) {
    Kind("slug", Identity, "author_id", AuthorOf, userIds, "invalid input value for enum article_status_enum", "status")
  }

  /** Saving an entity with an id: an update if the id is stored, else an insert; refused when
      another row holds the key. */
  function Save(t: Table, id: Id, row: Row): (r: Result<Table>)
    ensures r.Returned? && UniqueKeys(t) ==> UniqueKeys(r.value)
  {
    if exists other :: other in t && other != id && t[other].key == row.key then Thrown(UNIQUE_VIOLATION)
    else Returned(t[id := row])
  }

  /** The state of a batch loop; `seen` gives the line of the first row tried under each key. */
  datatype Acc = Acc(table: Table, seen: map<string, nat>, tally: Tally)

  /** The id a row is saved under: that of the row `view` holds for its key, or a new one. */
  function Target(view: Table, rec: Record, env: RowEnv): (id: Id)
    requires UniqueKeys(view)
  {
    if HasKey(view, rec.key) then IdOf(view, rec.key) else NewId(rec, env)
  }

  function Settle(kind: Kind, acc: Acc, rec: Record, end: RowEnd<Table>): (r: Result<Acc>) {
    match end
    case Kept(table) => Returned(acc.(table := table, tally := acc.tally.Win()))
    case Rejected(m) => Returned(acc.(tally := acc.tally.Lose(kind.RowError(rec, m))))
    case Undone(m) => Returned(acc.(tally := acc.tally.Win().Lose(kind.RowError(rec, m))))
    case Escaped(m) => Thrown(m)
  }

  /** One row: a key already tried in the batch is refused, then a missing reference; otherwise the
      row is saved under its savepoint, `view` telling update from insert. */
  function StepRow(kind: Kind, view: Table, acc: Acc, rec: Record, env: RowEnv): (r: Result<Acc>)
    requires UniqueKeys(view)
    ensures r.Returned? && UniqueKeys(acc.table) ==> UniqueKeys(r.value.table)
  {
    var c := kind.canon(rec.key);
    if c in acc.seen then Returned(acc.(tally := acc.tally.Lose(kind.RepeatError(rec, acc.seen[c]))))
    else
      var tried := acc.(seen := acc.seen[c := rec.line]);
      if !kind.Accepts(rec) then Returned(tried.(tally := acc.tally.Lose(kind.ReferenceError(rec))))
      else
        var saved := Save(acc.table, Target(view, rec, env), Row(rec.key, rec.fields));
        Settle(kind, tried, rec, UnderSavepoint(None, saved, env))
  }

  /** The three ways through a row. */
  lemma RepeatStep(kind: Kind, view: Table, acc: Acc, rec: Record, env: RowEnv)
    requires UniqueKeys(view) && kind.canon(rec.key) in acc.seen
    ensures var c := kind.canon(rec.key);
      StepRow(kind, view, acc, rec, env)
      == Returned(acc.(tally := acc.tally.Lose(kind.RepeatError(rec, acc.seen[c]))))
  {
  }

  lemma RefusedStep(kind: Kind, view: Table, acc: Acc, rec: Record, env: RowEnv)
    requires UniqueKeys(view) && kind.canon(rec.key) !in acc.seen && !kind.Accepts(rec)
    ensures StepRow(kind, view, acc, rec, env)
         == Returned(Acc(acc.table, acc.seen[kind.canon(rec.key) := rec.line],
             acc.tally.Lose(kind.ReferenceError(rec))))
  {
  }

  lemma TriedStep(kind: Kind, view: Table, acc: Acc, rec: Record, env: RowEnv)
    requires UniqueKeys(view) && kind.canon(rec.key) !in acc.seen && kind.Accepts(rec)
    ensures var tried := acc.(seen := acc.seen[kind.canon(rec.key) := rec.line]);
      var saved := Save(acc.table, Target(view, rec, env), Row(rec.key, rec.fields));
      StepRow(kind, view, acc, rec, env) == Settle(kind, tried, rec, UnderSavepoint(None, saved, env))
  {
  }

  /** The fast form: `view` is read once, before the first row. */
  function FastFold(kind: Kind, view: Table, acc: Acc, recs: seq<Record>, env: nat -> RowEnv): (r: Result<Acc>)
    requires UniqueKeys(view)
    decreases |recs|
  {
    if recs == [] then Returned(acc)
    else
      match StepRow(kind, view, acc, recs[0], env(recs[0].line))
      case Returned(next) => FastFold(kind, view, next, recs[1..], env)
      case Thrown(m) => Thrown(m)
  }

  /** The fast form from row `i` of a batch on. */
  lemma FastFoldFrom(kind: Kind, view: Table, acc: Acc, recs: seq<Record>, i: nat, row: nat -> RowEnv)
    requires UniqueKeys(view) && i < |recs|
    ensures FastFold(kind, view, acc, recs[i..], row)
         == match StepRow(kind, view, acc, recs[i], row(recs[i].line))
            case Returned(next) => FastFold(kind, view, next, recs[i + 1..], row)
            case Thrown(m) => Thrown(m)
  {
    assert recs[i..][0] == recs[i] && recs[i..][1..] == recs[i + 1..];
  }

  /** The simple form: every row is upserted against the table as it stands. */
  function SlowFold(kind: Kind, acc: Acc, recs: seq<Record>, env: nat -> RowEnv): (r: Result<Acc>)
    requires UniqueKeys(acc.table)
    decreases |recs|
  {
    if recs == [] then Returned(acc)
    else
      match StepRow(kind, acc.table, acc, recs[0], env(recs[0].line))
      case Returned(next) => SlowFold(kind, next, recs[1..], env)
      case Thrown(m) => Thrown(m)
  }

  lemma SlowFoldFrom(kind: Kind, acc: Acc, recs: seq<Record>, i: nat, row: nat -> RowEnv)
    requires UniqueKeys(acc.table) && i < |recs|
    ensures SlowFold(kind, acc, recs[i..], row)
         == match StepRow(kind, acc.table, acc, recs[i], row(recs[i].line))
            case Returned(next) => SlowFold(kind, next, recs[i + 1..], row)
            case Thrown(m) => Thrown(m)
  {
    assert recs[i..][0] == recs[i] && recs[i..][1..] == recs[i + 1..];
  }

  // ---------------------------------------------------------------------------------------
  // Refinement
  // ---------------------------------------------------------------------------------------

  /** Row `i` is the first of `recs` under its canonical key. */
  predicate FirstUnder(kind: Kind, recs: seq<Record>, i: nat)
    requires i < |recs|
  {
    forall j :: 0 <= j < i ==> kind.canon(recs[j].key) != kind.canon(recs[i].key)
  }

  /** A batch tries to save row `i`: it repeats no earlier key and is accepted. */
  predicate Tries(kind: Kind, recs: seq<Record>, i: nat)
    requires i < |recs|
  {
    FirstUnder(kind, recs, i) && kind.Accepts(recs[i])
  }

  /** Row `i` is tried and finds no stored row, so that it is saved under a new id. */
  predicate Creates(kind: Kind, t: Table, recs: seq<Record>, i: nat)
    requires i < |recs|
  {
    Tries(kind, recs, i) && !HasKey(t, recs[i].key)
  }

  function NewIdAt(recs: seq<Record>, env: nat -> RowEnv, i: nat): (id: Id)
    requires i < |recs|
  {
    NewId(recs[i], env(recs[i].line))
  }

  /** Row `i` is saved under the id of the stored row that the later row `m` is to update. */
  predicate Takes(kind: Kind, t: Table, recs: seq<Record>, env: nat -> RowEnv, i: nat, m: nat)
    requires UniqueKeys(t) && i < m < |recs|
  {
    && Creates(kind, t, recs, i) && Tries(kind, recs, m) && HasKey(t, recs[m].key)
    && NewIdAt(recs, env, i) == IdOf(t, recs[m].key)
  }

  /** Whenever a row takes the id a later one is to update, the later one supplies that id too. */
  ghost predicate TakesAgree(kind: Kind, t: Table, recs: seq<Record>, env: nat -> RowEnv)
    requires UniqueKeys(t)
  {
    forall i, m :: 0 <= i < m < |recs| && Takes(kind, t, recs, env, i, m) ==>
        NewIdAt(recs, env, m) == NewIdAt(recs, env, i)
  }

  /** The same said of the table and the batch alone: it concerns supplied ids. */
  ghost predicate Untaken(kind: Kind, t: Table, recs: seq<Record>)
    requires UniqueKeys(t)
  {
    forall i, m :: 0 <= i < m < |recs| && Creates(kind, t, recs, i) && Tries(kind, recs, m)
                   && HasKey(t, recs[m].key) && recs[i].id == Some(IdOf(t, recs[m].key)) ==>
        recs[m].id == recs[i].id
  }

  /** Generated ids are not stored yet. */
  ghost predicate FreshIds(t: Table, env: nat -> RowEnv) {
    forall n :: env(n).uuid !in t
  }

  /** Two tables answer a lookup of `key` alike. */
  predicate SameLookup(a: Table, b: Table, key: string)
    requires UniqueKeys(a) && UniqueKeys(b)
  {
    && (HasKey(a, key) <==> HasKey(b, key))
    && (HasKey(a, key) ==> IdOf(a, key) == IdOf(b, key))
  }

  /** Saving a row under the id its key already has, or under an unused one, succeeds and disturbs
      no other key. */
  lemma SaveDisturbsNoOtherKey(t: Table, id: Id, row: Row, key: string)
    requires UniqueKeys(t)
    requires if HasKey(t, row.key) then id == IdOf(t, row.key) else id !in t
    ensures Save(t, id, row) == Returned(t[id := row])
    ensures key != row.key ==> SameLookup(t, t[id := row], key)
    ensures HasKey(t[id := row], row.key) && IdOf(t[id := row], row.key) == id
  {
    var t' := t[id := row];
    assert t'[id].key == row.key;
    if key != row.key && HasKey(t, key) {
      assert t'[IdOf(t, key)].key == key;
    }
  }

  /** Saving a row under any id changes the lookup of another key only if it takes that key's row. */
  lemma SaveMovesOneKey(t: Table, id: Id, row: Row, key: string)
    requires UniqueKeys(t) && UniqueKeys(t[id := row]) && key != row.key
    ensures if HasKey(t, key) && IdOf(t, key) == id then !HasKey(t[id := row], key)
            else SameLookup(t, t[id := row], key)
  {
    var t' := t[id := row];
    if HasKey(t, key) && IdOf(t, key) != id {
      assert t'[IdOf(t, key)].key == key;
    }
  }

  /** The canonical keys of the first `n` rows. */
  function CanonKeys(kind: Kind, recs: seq<Record>, n: nat): (keys: set<string>)
    requires n <= |recs|
    ensures n < |recs| ==> (kind.canon(recs[n].key) !in keys <==> FirstUnder(kind, recs, n))
  {
    set j | 0 <= j < n :: kind.canon(recs[j].key)
  }

  lemma CanonKeysNext(kind: Kind, recs: seq<Record>, n: nat)
    requires n < |recs|
    ensures CanonKeys(kind, recs, n + 1) == CanonKeys(kind, recs, n) + {kind.canon(recs[n].key)}
  {
  }

  /** Row `m`, looked up now, leads to the id it would have led to before the batch: its key is found
      alike, or its row was taken under an id that row `m` supplies itself. */
  predicate SameTarget(view: Table, now: Table, recs: seq<Record>, env: nat -> RowEnv, m: nat)
    requires UniqueKeys(view) && UniqueKeys(now) && m < |recs|
  {
    var key := recs[m].key;
    || SameLookup(view, now, key)
    || (HasKey(view, key) && !HasKey(now, key) && NewIdAt(recs, env, m) == IdOf(view, key))
  }

  ghost predicate SameTargets(kind: Kind, view: Table, now: Table, recs: seq<Record>, env: nat -> RowEnv, n: nat)
    requires UniqueKeys(view) && UniqueKeys(now)
  {
    forall m :: n <= m < |recs| && Tries(kind, recs, m) ==> SameTarget(view, now, recs, env, m)
  }

  /** Saving row `n` leaves the target of a later row `m` the same. */
  lemma TargetKept(kind: Kind, view: Table, now: Table, recs: seq<Record>, env: nat -> RowEnv, n: nat, m: nat)
    requires UniqueKeys(view) && UniqueKeys(now) && TakesAgree(kind, view, recs, env)
    requires n < m < |recs| && Tries(kind, recs, n) && Tries(kind, recs, m)
    requires SameTarget(view, now, recs, env, m)
    requires UniqueKeys(now[Target(view, recs[n], env(recs[n].line)) := Row(recs[n].key, recs[n].fields)])
    ensures var id := Target(view, recs[n], env(recs[n].line));
            SameTarget(view, now[id := Row(recs[n].key, recs[n].fields)], recs, env, m)
  {
    var id, row := Target(view, recs[n], env(recs[n].line)), Row(recs[n].key, recs[n].fields);
    SaveMovesOneKey(now, id, row, recs[m].key);
    if HasKey(now, recs[m].key) && IdOf(now, recs[m].key) == id {
      assert Takes(kind, view, recs, env, n, m);
    }
  }

  /** What a row does to the table is to save it under its target, or nothing. */
  lemma StepTable(kind: Kind, view: Table, acc: Acc, rec: Record, env: RowEnv)
    requires UniqueKeys(view) && UniqueKeys(acc.table)
    ensures var r := StepRow(kind, view, acc, rec, env);
      r.Returned? ==>
        && r.value.seen.Keys == acc.seen.Keys + {kind.canon(rec.key)}
        && (r.value.table == acc.table
            || (&& kind.canon(rec.key) !in acc.seen && kind.Accepts(rec)
                && r.value.table == acc.table[Target(view, rec, env) := Row(rec.key, rec.fields)]))
  {
  }

  /** Refinement from any row of a batch on, for every pattern of faults. */
  lemma {:induction false} FastIsSlow(kind: Kind, view: Table, acc: Acc, recs: seq<Record>, n: nat, env: nat -> RowEnv)
    requires UniqueKeys(view) && UniqueKeys(acc.table) && TakesAgree(kind, view, recs, env)
    requires n <= |recs| && acc.seen.Keys == CanonKeys(kind, recs, n)
    requires SameTargets(kind, view, acc.table, recs, env, n)
    ensures FastFold(kind, view, acc, recs[n..], env) == SlowFold(kind, acc, recs[n..], env)
    decreases |recs| - n
  {
    if n < |recs| {
      var rec := recs[n];
      FastFoldFrom(kind, view, acc, recs, n, env);
      SlowFoldFrom(kind, acc, recs, n, env);
      var r := StepRow(kind, view, acc, rec, env(rec.line));
      assert r == StepRow(kind, acc.table, acc, rec, env(rec.line)) by {
        if Tries(kind, recs, n) {
          assert SameTarget(view, acc.table, recs, env, n);
        }
      }
      if r.Returned? {
        StepTable(kind, view, acc, rec, env(rec.line));
        assert CanonKeys(kind, recs, n + 1) == CanonKeys(kind, recs, n) + {kind.canon(rec.key)};
        forall m | n + 1 <= m < |recs| && Tries(kind, recs, m)
          ensures SameTarget(view, r.value.table, recs, env, m)
        {
          if r.value.table != acc.table {
            TargetKept(kind, view, acc.table, recs, env, n, m);
          }
        }
        FastIsSlow(kind, view, r.value, recs, n + 1, env);
      }
    }
  }

  /** Both forms end a batch alike: the same table, lines, counts and errors, or the same throw. */
  predicate FormsAgree(kind: Kind, t: Table, recs: seq<Record>, env: nat -> RowEnv)
    requires UniqueKeys(t)
  {
    FastFold(kind, t, Acc(t, map[], ZERO), recs, env) == SlowFold(kind, Acc(t, map[], ZERO), recs, env)
  }

  /** Refinement of a whole batch as `upsertUsers` and `upsertArticles` run it: for every table, batch
      and pattern of faults, reading the keys once before the loop gives the same table, counts and
      errors as reading them anew for each row, unless a new row's id takes the row a later one is to
      update. */
  lemma BatchRefinesRowByRow(kind: Kind, t: Table, recs: seq<Record>, env: nat -> RowEnv)
    requires UniqueKeys(t) && TakesAgree(kind, t, recs, env)
    ensures FormsAgree(kind, t, recs, env)
  {
    assert recs[0..] == recs;
    FastIsSlow(kind, t, Acc(t, map[], ZERO), recs, 0, env);
  }

  // ---------------------------------------------------------------------------------------
  // The condition is exact
  // ---------------------------------------------------------------------------------------

  /** A row whose SAVEPOINT throws changes no table, in either form. */
  predicate Blocked(env: RowEnv) {
    env.savepoint.Some? && env.rollback.None?
  }

  /** Rows `a` to `b`, all blocked, are passed over by both forms alike. */
  lemma {:induction false} BlockedRows(kind: Kind, view: Table, acc: Acc, recs: seq<Record>, a: nat, b: nat,
                                       env: nat -> RowEnv) returns (acc': Acc)
    requires UniqueKeys(view) && UniqueKeys(acc.table) && a <= b <= |recs| && acc.seen.Keys == CanonKeys(kind, recs, a)
    requires forall k :: a <= k < b ==> Blocked(env(recs[k].line))
    ensures acc'.table == acc.table && acc'.seen.Keys == CanonKeys(kind, recs, b)
    ensures FastFold(kind, view, acc, recs[a..], env) == FastFold(kind, view, acc', recs[b..], env)
    ensures SlowFold(kind, acc, recs[a..], env) == SlowFold(kind, acc', recs[b..], env)
    decreases b - a
  {
    if a == b {
      acc' := acc;
    } else {
      FastFoldFrom(kind, view, acc, recs, a, env);
      SlowFoldFrom(kind, acc, recs, a, env);
      StepTable(kind, view, acc, recs[a], env(recs[a].line));
      assert CanonKeys(kind, recs, a + 1) == CanonKeys(kind, recs, a) + {kind.canon(recs[a].key)};
      var next := StepRow(kind, view, acc, recs[a], env(recs[a].line)).value;
      acc' := BlockedRows(kind, view, next, recs, a + 1, b, env);
    }
  }

  /** An untried, accepted row without faults is saved under its target. */
  lemma StepSaves(kind: Kind, view: Table, acc: Acc, rec: Record, env: RowEnv, id: Id)
    requires UniqueKeys(view) && kind.canon(rec.key) !in acc.seen && kind.Accepts(rec)
    requires Target(view, rec, env) == id
    requires env.savepoint.None? && env.save.None? && env.release.None?
    requires forall other :: other in acc.table && other != id ==> acc.table[other].key != rec.key
    ensures StepRow(kind, view, acc, rec, env)
         == Returned(Acc(acc.table[id := Row(rec.key, rec.fields)], acc.seen[kind.canon(rec.key) := rec.line],
             acc.tally.Win()))
  {
  }

  /** Row `n` gets through to its target `id`, and the rows after it up to `b` are blocked. */
  lemma SavedRow(kind: Kind, view: Table, acc: Acc, recs: seq<Record>, n: nat, b: nat, env: nat -> RowEnv, id: Id)
    returns (acc': Acc)
    requires UniqueKeys(view) && UniqueKeys(acc.table) && n < b <= |recs| && acc.seen.Keys == CanonKeys(kind, recs, n)
    requires Tries(kind, recs, n) && Target(view, recs[n], env(recs[n].line)) == id
    requires env(recs[n].line).savepoint.None? && env(recs[n].line).save.None? && env(recs[n].line).release.None?
    requires forall other :: other in acc.table && other != id ==> acc.table[other].key != recs[n].key
    requires forall k :: n < k < b ==> Blocked(env(recs[k].line))
    ensures acc'.table == acc.table[id := Row(recs[n].key, recs[n].fields)] && UniqueKeys(acc'.table)
    ensures acc'.seen.Keys == CanonKeys(kind, recs, b)
    ensures FastFold(kind, view, acc, recs[n..], env) == FastFold(kind, view, acc', recs[b..], env)
    ensures Target(acc.table, recs[n], env(recs[n].line)) == id ==>
              SlowFold(kind, acc, recs[n..], env) == SlowFold(kind, acc', recs[b..], env)
  {
    var rec, row := recs[n], env(recs[n].line);
    StepSaves(kind, view, acc, rec, row, id);
    FastFoldFrom(kind, view, acc, recs, n, env);
    if Target(acc.table, rec, row) == id {
      StepSaves(kind, acc.table, acc, rec, row, id);
      SlowFoldFrom(kind, acc, recs, n, env);
    }
    assert CanonKeys(kind, recs, n + 1) == CanonKeys(kind, recs, n) + {kind.canon(rec.key)};
    acc' := BlockedRows(kind, view, StepRow(kind, view, acc, rec, row).value, recs, n + 1, b, env);
  }

  /** Surroundings in which only two rows of a batch get through. */
  function OnlyTwo(x: nat, y: nat, uuid: Id): (env: nat -> RowEnv) {
    (n: nat) => RowEnv(uuid, if n == x || n == y then None else Some("blocked"), None, None, None, None)
  }

  predicate DistinctLines(recs: seq<Record>) {
    forall i, j :: 0 <= i < j < |recs| ==> recs[i].line != recs[j].line
  }

  /** All rows but two are blocked, and those two meet no fault. */
  ghost predicate OnlyTwoPass(recs: seq<Record>, env: nat -> RowEnv, i: nat, m: nat)
    requires i < m < |recs|
  {
    forall k :: 0 <= k < |recs| ==>
      var row := env(recs[k].line);
      if k == i || k == m then row.savepoint.None? && row.save.None? && row.release.None? else Blocked(row)
  }

  /** Row `i` is saved under the id of the stored row that row `m` is to update, and nothing else happens
      before row `m`. */
  lemma RowIsTaken(kind: Kind, t: Table, recs: seq<Record>, i: nat, m: nat, env: nat -> RowEnv, id: Id)
    returns (taken: Acc)
    requires UniqueKeys(t) && i < m < |recs| && OnlyTwoPass(recs, env, i, m)
    requires Creates(kind, t, recs, i) && recs[i].id == Some(id)
    requires HasKey(t, recs[m].key) && id == IdOf(t, recs[m].key)
    ensures taken.table == t[id := Row(recs[i].key, recs[i].fields)] && UniqueKeys(taken.table)
    ensures taken.seen.Keys == CanonKeys(kind, recs, m)
    ensures FastFold(kind, t, Acc(t, map[], ZERO), recs, env) == FastFold(kind, t, taken, recs[m..], env)
    ensures SlowFold(kind, Acc(t, map[], ZERO), recs, env) == SlowFold(kind, taken, recs[m..], env)
  {
    assert recs[0..] == recs;
    var before := BlockedRows(kind, t, Acc(t, map[], ZERO), recs, 0, i, env);
    taken := SavedRow(kind, t, before, recs, i, m, env, id);
  }

  lemma SavedOver(t: Table, id: Id, first: Row, second: Row)
    ensures t[id := first][id := second] == t[id := second]
  {
  }

  /** The fast form hands the stored row back to row `m`. */
  lemma FastTakesBack(kind: Kind, t: Table, recs: seq<Record>, i: nat, m: nat, env: nat -> RowEnv, id: Id)
    requires UniqueKeys(t) && i < m < |recs| && OnlyTwoPass(recs, env, i, m)
    requires Creates(kind, t, recs, i) && recs[i].id == Some(id)
    requires Tries(kind, recs, m) && HasKey(t, recs[m].key) && id == IdOf(t, recs[m].key)
    ensures var fast := FastFold(kind, t, Acc(t, map[], ZERO), recs, env);
      fast.Returned? && fast.value.table == t[id := Row(recs[m].key, recs[m].fields)]
  {
    assert recs[|recs|..] == [];
    var taken := RowIsTaken(kind, t, recs, i, m, env, id);
    var fast := SavedRow(kind, t, taken, recs, m, |recs|, env, id);
    SavedOver(t, id, Row(recs[i].key, recs[i].fields), Row(recs[m].key, recs[m].fields));
  }

  /** The simple form, no longer finding the key of row `m`, makes a second row under that row's own
      new id. */
  lemma SlowMakesSecond(kind: Kind, t: Table, recs: seq<Record>, i: nat, m: nat, env: nat -> RowEnv, id: Id)
    requires UniqueKeys(t) && i < m < |recs| && OnlyTwoPass(recs, env, i, m)
    requires Creates(kind, t, recs, i) && recs[i].id == Some(id)
    requires Tries(kind, recs, m) && HasKey(t, recs[m].key) && id == IdOf(t, recs[m].key)
    ensures var slow := SlowFold(kind, Acc(t, map[], ZERO), recs, env);
      && slow.Returned?
      && slow.value.table == t[id := Row(recs[i].key, recs[i].fields)]
                              [NewIdAt(recs, env, m) := Row(recs[m].key, recs[m].fields)]
  {
    assert recs[|recs|..] == [];
    var taken := RowIsTaken(kind, t, recs, i, m, env, id);
    assert !HasKey(taken.table, recs[m].key);
    var slow := SavedRow(kind, taken.table, taken, recs, m, |recs|, env, NewIdAt(recs, env, m));
  }

  /** A string longer than all of a finite set. */
  lemma {:induction false} LongerThanAll(ids: set<Id>) returns (id: Id)
    ensures forall other :: other in ids ==> |other| < |id|
    decreases |ids|
  {
    id := "x";
    if ids != {} {
      var some :| some in ids;
      id := LongerThanAll(ids - {some});
      if |some| >= |id| {
        id := some + "x";
      }
    }
  }

  lemma UntakenRefines(kind: Kind, t: Table, recs: seq<Record>, env: nat -> RowEnv)
    requires UniqueKeys(t) && Untaken(kind, t, recs) && FreshIds(t, env)
    ensures FormsAgree(kind, t, recs, env)
  {
    assert TakesAgree(kind, t, recs, env);
    BatchRefinesRowByRow(kind, t, recs, env);
  }

  lemma TakenParts(kind: Kind, t: Table, recs: seq<Record>) returns (env: nat -> RowEnv)
    requires UniqueKeys(t) && DistinctLines(recs) && !Untaken(kind, t, recs)
    ensures FreshIds(t, env) && !FormsAgree(kind, t, recs, env)
  {
    var i, m :| 0 <= i < m < |recs| && Creates(kind, t, recs, i) && Tries(kind, recs, m)
      && HasKey(t, recs[m].key) && recs[i].id == Some(IdOf(t, recs[m].key)) && recs[m].id != recs[i].id;
    var uuid := LongerThanAll(t.Keys);
    env := OnlyTwo(recs[i].line, recs[m].line, uuid);
    var id := recs[i].id.value;
    FastTakesBack(kind, t, recs, i, m, env, id);
    SlowMakesSecond(kind, t, recs, i, m, env, id);
    assert recs[m].key != recs[i].key;
    assert FastFold(kind, t, Acc(t, map[], ZERO), recs, env).value.table[id].key
        != SlowFold(kind, Acc(t, map[], ZERO), recs, env).value.table[id].key;
  }

  /** The exact condition, in terms of the table and the batch: under whatever faults and with
      whatever fresh ids, reading the keys once gives the same as reading them for each row, if and only if
      no new row supplies the id of a stored row that a later row is to update without supplying
      that id itself. */
  lemma RefinesIffUntaken(kind: Kind, t: Table, recs: seq<Record>)
    requires UniqueKeys(t) && DistinctLines(recs)
    ensures Untaken(kind, t, recs)
       <==> forall env: nat -> RowEnv :: FreshIds(t, env) ==> FormsAgree(kind, t, recs, env)
  {
    if Untaken(kind, t, recs) {
      forall env: nat -> RowEnv | FreshIds(t, env)
        ensures FormsAgree(kind, t, recs, env)
      {
        UntakenRefines(kind, t, recs, env);
      }
    } else {
      var env := TakenParts(kind, t, recs);
    }
  }

  /** Key uniqueness is kept throughout, clash or not. */
  lemma {:induction false} KeysStayUnique(kind: Kind, view: Table, acc: Acc, recs: seq<Record>, env: nat -> RowEnv)
    requires UniqueKeys(view) && UniqueKeys(acc.table)
    ensures var r := FastFold(kind, view, acc, recs, env); r.Returned? ==> UniqueKeys(r.value.table)
    decreases |recs|
  {
    if recs != [] {
      var r := StepRow(kind, view, acc, recs[0], env(recs[0].line));
      if r.Returned? {
        KeysStayUnique(kind, view, r.value, recs[1..], env);
      }
    }
  }

  /** A smallest case, in any table and for any two keys and ids: row `x`, whose key `b` a first row
      renames to `a` by supplying its id, is taken back by the fast form, where the simple form, no
      longer finding `b`, makes a second row `y`. */
  lemma IdClashBreaksRefinement(kind: Kind, t: Table, a: string, b: string, x: Id, y: Id, g: Fields,
                                h: Fields)
    requires UniqueKeys(t) && x in t && t[x].key == b && !HasKey(t, a) && kind.canon(a) != kind.canon(b)
    requires kind.Accepts(Record(1, Some(x), a, g)) && kind.Accepts(Record(2, None, b, h)) && x != y
    ensures var recs := [Record(1, Some(x), a, g), Record(2, None, b, h)];
      var fast := FastFold(kind, t, Acc(t, map[], ZERO), recs, OnlyTwo(1, 2, y));
      var slow := SlowFold(kind, Acc(t, map[], ZERO), recs, OnlyTwo(1, 2, y));
      && fast.Returned? && fast.value.table == t[x := Row(b, h)]
      && slow.Returned? && slow.value.table == t[x := Row(a, g)][y := Row(b, h)]
      && fast.value.table[x].key != slow.value.table[x].key
  {
    var recs := [Record(1, Some(x), a, g), Record(2, None, b, h)];
    assert IdOf(t, b) == x && recs[0].line == 1 && recs[1].line == 2;
    assert Creates(kind, t, recs, 0) && Tries(kind, recs, 1);
    FastTakesBack(kind, t, recs, 0, 1, OnlyTwo(1, 2, y), x);
    SlowMakesSecond(kind, t, recs, 0, 1, OnlyTwo(1, 2, y), x);
  }

  // ---------------------------------------------------------------------------------------
  // What a repeat's error says
  // ---------------------------------------------------------------------------------------

  /** `seen` holds the keys of the first `n` rows, each with the line of its first row. */
  ghost predicate SeenIsFirstLines(kind: Kind, seen: map<string, nat>, recs: seq<Record>, n: nat)
    requires n <= |recs|
  {
    && (forall i :: 0 <= i < n ==> kind.canon(recs[i].key) in seen)
    && (forall i :: 0 <= i < n && FirstUnder(kind, recs, i) ==> seen[kind.canon(recs[i].key)] == recs[i].line)
    && (forall c :: c in seen ==> exists i :: 0 <= i < n && kind.canon(recs[i].key) == c && FirstUnder(kind, recs, i))
  }

  /** A repeat error names a later row and the first row of the batch under the same key. */
  ghost predicate TellsFirstRow(kind: Kind, recs: seq<Record>, e: JobError) {
    e.reason.DuplicateInFile? ==>
      exists i, j :: 0 <= i < j < |recs| && FirstUnder(kind, recs, i)
        && kind.canon(recs[i].key) == kind.canon(recs[j].key)
        && e == JobError(recs[j].line, Some(kind.keyField), DuplicateInFile(recs[j].key, recs[i].line))
  }

  lemma SeenGrows(kind: Kind, seen: map<string, nat>, recs: seq<Record>, n: nat)
    requires n < |recs| && SeenIsFirstLines(kind, seen, recs, n)
    ensures kind.canon(recs[n].key) in seen ==> SeenIsFirstLines(kind, seen, recs, n + 1)
    ensures kind.canon(recs[n].key) !in seen ==>
              SeenIsFirstLines(kind, seen[kind.canon(recs[n].key) := recs[n].line], recs, n + 1)
  {
    var c := kind.canon(recs[n].key);
    if c in seen {
      assert !FirstUnder(kind, recs, n);
    } else {
      assert FirstUnder(kind, recs, n);
    }
  }

  /** One row adds at most one error, a repeat error only for a repeat. */
  lemma StepErrors(kind: Kind, view: Table, acc: Acc, rec: Record, env: RowEnv)
    requires UniqueKeys(view)
    ensures var r := StepRow(kind, view, acc, rec, env);
      var c := kind.canon(rec.key);
      r.Returned? ==>
        && r.value.seen == (if c in acc.seen then acc.seen else acc.seen[c := rec.line])
        && (r.value.tally.errors == acc.tally.errors
            || exists e :: r.value.tally.errors == acc.tally.errors + [e]
                           && (e.reason.DuplicateInFile? ==> c in acc.seen && e == kind.RepeatError(rec, acc.seen[c])))
  {
  }

  lemma StepTells(kind: Kind, view: Table, acc: Acc, recs: seq<Record>, n: nat, env: RowEnv)
    requires UniqueKeys(view) && n < |recs| && SeenIsFirstLines(kind, acc.seen, recs, n)
    requires forall k :: 0 <= k < |acc.tally.errors| ==> TellsFirstRow(kind, recs, acc.tally.errors[k])
    ensures var r := StepRow(kind, view, acc, recs[n], env);
      r.Returned? ==>
        && SeenIsFirstLines(kind, r.value.seen, recs, n + 1)
        && (forall k :: 0 <= k < |r.value.tally.errors| ==> TellsFirstRow(kind, recs, r.value.tally.errors[k]))
  {
    var rec := recs[n];
    var c := kind.canon(rec.key);
    SeenGrows(kind, acc.seen, recs, n);
    StepErrors(kind, view, acc, rec, env);
    if c in acc.seen {
      var i :| 0 <= i < n && kind.canon(recs[i].key) == c && FirstUnder(kind, recs, i);
      assert TellsFirstRow(kind, recs, kind.RepeatError(rec, acc.seen[c]));
    }
  }

  /** In every batch, a row refused as a repeat is one, and its error points at the first row. */
  lemma {:induction false} RepeatErrorsNameTheFirstRow(kind: Kind, view: Table, acc: Acc, recs: seq<Record>, n: nat,
                                                       env: nat -> RowEnv)
    requires UniqueKeys(view) && n <= |recs| && SeenIsFirstLines(kind, acc.seen, recs, n)
    requires forall k :: 0 <= k < |acc.tally.errors| ==> TellsFirstRow(kind, recs, acc.tally.errors[k])
    ensures var r := FastFold(kind, view, acc, recs[n..], env);
      r.Returned? ==> forall k :: 0 <= k < |r.value.tally.errors| ==> TellsFirstRow(kind, recs, r.value.tally.errors[k])
    decreases |recs| - n
  {
    if n == |recs| {
      assert recs[n..] == [];
    } else {
      FastFoldFrom(kind, view, acc, recs, n, env);
      StepTells(kind, view, acc, recs, n, env(recs[n].line));
      var r := StepRow(kind, view, acc, recs[n], env(recs[n].line));
      if r.Returned? {
        RepeatErrorsNameTheFirstRow(kind, view, r.value, recs, n + 1, env);
      }
    }
  }

  // ---------------------------------------------------------------------------------------
  // Comments
  // ---------------------------------------------------------------------------------------

  type Comments = map<Id, Fields>

  datatype CommentAcc = CommentAcc(table: Comments, tally: Tally)

  /** The id a comment carries, without its optional `cm_` prefix. */
  function CommentId(rec: Record): (id: Option<Id>) {
    if rec.id.None? then None
    else if "cm_" <= rec.id.value then Some(rec.id.value[3..])
    else rec.id
  }

  function CommentTarget(rec: Record, env: RowEnv): (id: Id) {
    if CommentId(rec).Some? then CommentId(rec).value else env.uuid
  }

  /** Comments name an article and a user, checked in that order; a comment with an id is looked up
      by it for each row, so that repeats overwrite each other. */
  function StepComment(articles: set<Id>, users: set<Id>, acc: CommentAcc, rec: Record, env: RowEnv)
    : (r: Result<CommentAcc>)
  {
    if rec.fields.CommentFields? && rec.fields.articleId !in articles then
      var missing := JobError(rec.line, Some("article_id"), MissingReference(rec.fields.articleId));
      Returned(acc.(tally := acc.tally.Lose(missing)))
    else if rec.fields.CommentFields? && rec.fields.userId !in users then
      var missing := JobError(rec.line, Some("user_id"), MissingReference(rec.fields.userId));
      Returned(acc.(tally := acc.tally.Lose(missing)))
    else
      var saved := Returned(acc.table[CommentTarget(rec, env) := rec.fields]);
      match UnderSavepoint(if rec.id.Some? then env.find else None, saved, env)
      case Kept(table) => Returned(CommentAcc(table, acc.tally.Win()))
      case Rejected(m) => Returned(acc.(tally := acc.tally.Lose(JobError(rec.line, None, DatabaseError(m)))))
      case Undone(m) => Returned(acc.(tally := acc.tally.Win().Lose(JobError(rec.line, None, DatabaseError(m)))))
      case Escaped(m) => Thrown(m)
  }

  function CommentFold(articles: set<Id>, users: set<Id>, acc: CommentAcc, recs: seq<Record>, env: nat -> RowEnv)
    : (r: Result<CommentAcc>)
    decreases |recs|
  {
    if recs == [] then Returned(acc)
    else
      match StepComment(articles, users, acc, recs[0], env(recs[0].line))
      case Returned(next) => CommentFold(articles, users, next, recs[1..], env)
      case Thrown(m) => Thrown(m)
  }

  // ---------------------------------------------------------------------------------------
  // Counting rows
  // ---------------------------------------------------------------------------------------

  /** How many rows have a throwing RELEASE waiting for them. */
  function ReleaseThrows(recs: seq<Record>, env: nat -> RowEnv): (n: nat)
    ensures n <= |recs|
  {
    if recs == [] then 0
    else ReleaseThrows(recs[1..], env) + if env(recs[0].line).release.Some? then 1 else 0
  }

  /** A row that is counted as successful and as failed: it is tried, its SAVEPOINT and its save go
      through, and then its RELEASE throws. */
  predicate CountedTwice(kind: Kind, view: Table, acc: Acc, rec: Record, env: RowEnv)
    requires UniqueKeys(view)
  {
    && kind.canon(rec.key) !in acc.seen && kind.Accepts(rec)
    && env.savepoint.None? && env.save.None? && env.release.Some?
    && Save(acc.table, Target(view, rec, env), Row(rec.key, rec.fields)).Returned?
  }

  /** How many rows of a batch are counted twice. */
  function Twice(kind: Kind, view: Table, acc: Acc, recs: seq<Record>, env: nat -> RowEnv): (n: nat)
    requires UniqueKeys(view)
    decreases |recs|
  {
    if recs == [] then 0
    else
      (if CountedTwice(kind, view, acc, recs[0], env(recs[0].line)) then 1 else 0) +
      match StepRow(kind, view, acc, recs[0], env(recs[0].line))
      case Returned(next) => Twice(kind, view, next, recs[1..], env)
      case Thrown(_) => 0
  }

  predicate AcceptedBy(articles: set<Id>, users: set<Id>, rec: Record) {
    rec.fields.CommentFields? ==> rec.fields.articleId in articles && rec.fields.userId in users
  }

  predicate CommentCountedTwice(articles: set<Id>, users: set<Id>, rec: Record, env: RowEnv) {
    && AcceptedBy(articles, users, rec)
    && env.savepoint.None? && (rec.id.Some? ==> env.find.None?) && env.save.None? && env.release.Some?
  }

  function CommentTwice(articles: set<Id>, users: set<Id>, recs: seq<Record>, env: nat -> RowEnv): (n: nat) {
    if recs == [] then 0
    else
      (if CommentCountedTwice(articles, users, recs[0], env(recs[0].line)) then 1 else 0)
      + CommentTwice(articles, users, recs[1..], env)
  }

  /** `n` rows later, `extra` of them counted twice, with one error per failure. */
  predicate Counted(before: Tally, after: Tally, n: nat, extra: nat) {
    && after.successful + after.failed == before.successful + before.failed + n + extra
    && |after.errors| - |before.errors| == after.failed - before.failed
    && before.successful <= after.successful && before.failed <= after.failed
  }

  lemma StepRowCounts(kind: Kind, view: Table, acc: Acc, rec: Record, env: RowEnv)
    requires UniqueKeys(view)
    ensures var r := StepRow(kind, view, acc, rec, env);
      r.Returned? ==>
        Counted(acc.tally, r.value.tally, 1, if CountedTwice(kind, view, acc, rec, env) then 1 else 0)
  {
  }

  /** Every row is counted once and the rows whose RELEASE throws after their save once more; each
      failure has exactly one error. */
  lemma {:induction false} FastFoldCounts(kind: Kind, view: Table, acc: Acc, recs: seq<Record>, env: nat -> RowEnv)
    requires UniqueKeys(view)
    ensures var r := FastFold(kind, view, acc, recs, env);
      r.Returned? ==> Counted(acc.tally, r.value.tally, |recs|, Twice(kind, view, acc, recs, env))
    decreases |recs|
  {
    if recs != [] {
      var r := StepRow(kind, view, acc, recs[0], env(recs[0].line));
      StepRowCounts(kind, view, acc, recs[0], env(recs[0].line));
      if r.Returned? {
        FastFoldCounts(kind, view, r.value, recs[1..], env);
      }
    }
  }

  lemma {:induction false} CommentFoldCounts(articles: set<Id>, users: set<Id>, acc: CommentAcc, recs: seq<Record>,
                                             env: nat -> RowEnv)
    ensures var r := CommentFold(articles, users, acc, recs, env);
      r.Returned? ==> Counted(acc.tally, r.value.tally, |recs|, CommentTwice(articles, users, recs, env))
    decreases |recs|
  {
    if recs != [] {
      var r := StepComment(articles, users, acc, recs[0], env(recs[0].line));
      if r.Returned? {
        CommentFoldCounts(articles, users, r.value, recs[1..], env);
      }
    }
  }

  lemma {:induction false} TwiceBounded(kind: Kind, view: Table, acc: Acc, recs: seq<Record>, env: nat -> RowEnv)
    requires UniqueKeys(view)
    ensures Twice(kind, view, acc, recs, env) <= ReleaseThrows(recs, env)
    decreases |recs|
  {
    if recs != [] {
      var r := StepRow(kind, view, acc, recs[0], env(recs[0].line));
      if r.Returned? {
        TwiceBounded(kind, view, r.value, recs[1..], env);
      }
    }
  }

  lemma {:induction false} CommentTwiceBounded(articles: set<Id>, users: set<Id>, recs: seq<Record>,
                                               env: nat -> RowEnv)
    ensures CommentTwice(articles, users, recs, env) <= ReleaseThrows(recs, env)
  {
    if recs != [] {
      CommentTwiceBounded(articles, users, recs[1..], env);
    }
  }
}
