/** Importing a users or articles file without faults: what it leaves in the table, and that
    importing it again changes nothing. */
module Reimport {
  import opened Wrappers
  import opened Upserts
  import opened Imports

  /** No call throws while rows are handled. */
  ghost predicate QuietRows(env: nat -> RowEnv) {
    forall n :: env(n).savepoint.None? && env(n).find.None? && env(n).save.None? && env(n).release.None?
        && env(n).rollback.None?
  }

  /** What the table holds for a key: the row's id and its columns. */
  function Lookup(t: Table, key: string): (r: Option<(Id, Fields)>)
    requires UniqueKeys(t)
  {
    if HasKey(t, key) then Some((IdOf(t, key), t[IdOf(t, key)].fields)) else None
  }

  /** A table is its lookups. */
  lemma LookupsDetermine(a: Table, b: Table)
    requires UniqueKeys(a) && UniqueKeys(b)
    requires forall key :: Lookup(a, key) == Lookup(b, key)
    ensures a == b
  {
    forall id | id in a
      ensures id in b && b[id] == a[id]
    {
      assert IdOf(a, a[id].key) == id;
      assert Lookup(a, a[id].key) == Lookup(b, a[id].key);
    }
    forall id | id in b
      ensures id in a
    {
      assert IdOf(b, b[id].key) == id;
      assert Lookup(a, b[id].key) == Lookup(b, b[id].key);
    }
  }

  // ---------------------------------------------------------------------------------------
  // Batches without id clashes
  // ---------------------------------------------------------------------------------------

  /** Row `i` is the one its batch tries for its key, `seen` having been tried before, is accepted, and
      finds no stored row. */
  predicate CreatesAfter(kind: Kind, t: Table, seen: set<string>, recs: seq<Record>, i: nat)
    requires i < |recs|
  {
    Creates(kind, t, recs, i) && kind.canon(recs[i].key) !in seen
  }

  /** Rows that create a record carry ids that are neither stored (`ids`) nor used by another such row. */
  ghost predicate NoIdClash(kind: Kind, view: Table, ids: set<Id>, seen: set<string>, recs: seq<Record>,
                            env: nat -> RowEnv)
  {
    && (forall i :: 0 <= i < |recs| && CreatesAfter(kind, view, seen, recs, i) ==> NewIdAt(recs, env, i) !in ids)
    && (forall i, j :: 0 <= i < j < |recs| && CreatesAfter(kind, view, seen, recs, i)
                       && CreatesAfter(kind, view, seen, recs, j) ==>
          NewIdAt(recs, env, i) != NewIdAt(recs, env, j))
  }

  /** Lookups of untried keys give the same in the table a batch started from and the current one. */
  ghost predicate UntriedAlike(kind: Kind, view: Table, acc: Acc)
    requires UniqueKeys(view) && UniqueKeys(acc.table)
  {
    forall key :: kind.canon(key) !in acc.seen ==> SameLookup(view, acc.table, key)
  }

  lemma SavedLookups(t: Table, id: Id, row: Row, t': Table)
    requires UniqueKeys(t) && UniqueKeys(t') && t' == t[id := row]
    requires if HasKey(t, row.key) then id == IdOf(t, row.key) else id !in t
    ensures forall key :: key != row.key ==> SameLookup(t, t', key)
  {
    forall key | key != row.key
      ensures SameLookup(t, t', key)
    {
      SaveDisturbsNoOtherKey(t, id, row, key);
    }
  }

  /** A tried row leaves the untried keys alike, and adds no id but its target. */
  lemma StepKeepsUntried(kind: Kind, view: Table, acc: Acc, rec: Record, env: RowEnv)
    requires UniqueKeys(view) && UniqueKeys(acc.table) && UntriedAlike(kind, view, acc)
    requires kind.canon(rec.key) !in acc.seen && kind.Accepts(rec)
    requires !HasKey(view, rec.key) ==> NewId(rec, env) !in acc.table
    ensures var r := StepRow(kind, view, acc, rec, env);
      r.Returned? ==>
        && UntriedAlike(kind, view, r.value)
        && (r.value.table == acc.table
            || r.value.table == acc.table[Target(view, rec, env) := Row(rec.key, rec.fields)])
  {
    var id, row := Target(view, rec, env), Row(rec.key, rec.fields);
    assert SameLookup(view, acc.table, rec.key);
    SaveDisturbsNoOtherKey(acc.table, id, row, rec.key);
    var saved := acc.table[id := row];
    SavedLookups(acc.table, id, row, saved);
    var r := StepRow(kind, view, acc, rec, env);
    if r.Returned? {
      forall key | kind.canon(key) !in r.value.seen
        ensures SameLookup(view, r.value.table, key)
      {
        assert key != rec.key;
        assert SameLookup(view, acc.table, key) && SameLookup(acc.table, saved, key);
      }
    }
  }

  /** The first row of a batch without id clashes, tried or not, and what is left of the batch. */
  lemma HeadAgrees(kind: Kind, view: Table, acc: Acc, recs: seq<Record>, env: nat -> RowEnv)
    requires UniqueKeys(view) && UniqueKeys(acc.table) && UntriedAlike(kind, view, acc)
    requires recs != [] && NoIdClash(kind, view, acc.table.Keys, acc.seen.Keys, recs, env)
    ensures var r := StepRow(kind, view, acc, recs[0], env(recs[0].line));
      r.Returned? ==>
        && UntriedAlike(kind, view, r.value)
        && NoIdClash(kind, view, r.value.table.Keys, r.value.seen.Keys, recs[1..], env)
  {
    var rec := recs[0];
    assert kind.canon(rec.key) !in acc.seen && kind.Accepts(rec) && !HasKey(view, rec.key)
      <==> CreatesAfter(kind, view, acc.seen.Keys, recs, 0);
    assert NewIdAt(recs, env, 0) == NewId(rec, env(rec.line));
    var r := StepRow(kind, view, acc, rec, env(rec.line));
    if kind.canon(rec.key) !in acc.seen && kind.Accepts(rec) {
      assert SameLookup(view, acc.table, rec.key);
      StepKeepsUntried(kind, view, acc, rec, env(rec.line));
    }
    if r.Returned? {
      assert r.value.seen.Keys == acc.seen.Keys + {kind.canon(rec.key)};
      NoIdClashRest(kind, view, acc.table.Keys, r.value.table.Keys, acc.seen.Keys, recs, env);
    }
  }

  lemma NoIdClashRest(kind: Kind, view: Table, ids: set<Id>, ids': set<Id>, seen: set<string>,
                      recs: seq<Record>, env: nat -> RowEnv)
    requires recs != [] && NoIdClash(kind, view, ids, seen, recs, env)
    requires forall id :: id in ids' ==>
               id in ids || (CreatesAfter(kind, view, seen, recs, 0) && id == NewIdAt(recs, env, 0))
    ensures NoIdClash(kind, view, ids', seen + {kind.canon(recs[0].key)}, recs[1..], env)
  {
    var seen' := seen + {kind.canon(recs[0].key)};
    forall i | 0 <= i < |recs[1..]| && CreatesAfter(kind, view, seen', recs[1..], i)
      ensures CreatesAfter(kind, view, seen, recs, i + 1) && NewIdAt(recs[1..], env, i) == NewIdAt(recs, env, i + 1)
    {
      assert forall j :: 1 <= j < i + 1 ==> recs[j] == recs[1..][j - 1];
    }
  }

  // ---------------------------------------------------------------------------------------
  // One batch
  // ---------------------------------------------------------------------------------------

  /** The row of a batch that decides a key, `seen` having been tried before. */
  function Winner(kind: Kind, seen: set<string>, recs: seq<Record>, key: string): (i: Option<nat>)
    ensures i.Some? ==> i.value < |recs|
    decreases |recs|
  {
    if recs == [] then None
    else
      var c := kind.canon(recs[0].key);
      if c !in seen && recs[0].key == key then (if kind.Accepts(recs[0]) then Some(0) else None)
      else
        match Winner(kind, seen + {c}, recs[1..], key)
        case Some(i) => Some(i + 1)
        case None => None
  }

  lemma {:induction false} WinnerMeaning(kind: Kind, seen: set<string>, recs: seq<Record>, key: string, i: nat)
    ensures Winner(kind, seen, recs, key) == Some(i)
       <==> i < |recs| && recs[i].key == key && kind.canon(key) !in seen && Tries(kind, recs, i)
    decreases |recs|
  {
    if recs != [] {
      var c := kind.canon(recs[0].key);
      if i > 0 {
        WinnerMeaning(kind, seen + {c}, recs[1..], key, i - 1);
        if i < |recs| {
          assert recs[i] == recs[1..][i - 1];
          assert forall j :: 1 <= j < i ==> recs[j] == recs[1..][j - 1];
          assert Tries(kind, recs, i) <==> Tries(kind, recs[1..], i - 1) && c != kind.canon(recs[i].key) by {
            assert forall j :: 0 <= j < i - 1 ==> recs[1..][j] == recs[j + 1];
          }
        }
      }
    }
  }

  lemma {:induction false} NoWinnerForSeen(kind: Kind, seen: set<string>, recs: seq<Record>, key: string)
    requires kind.canon(key) in seen
    ensures Winner(kind, seen, recs, key) == None
    decreases |recs|
  {
    if recs != [] {
      NoWinnerForSeen(kind, seen + {kind.canon(recs[0].key)}, recs[1..], key);
    }
  }

  /** What a lookup gives after a batch in terms of its winner. */
  function AfterWinner(view: Table, before: Option<(Id, Fields)>, recs: seq<Record>, env: nat -> RowEnv,
                       winner: Option<nat>)
    : (r: Option<(Id, Fields)>)
    requires UniqueKeys(view) && (winner.Some? ==> winner.value < |recs|)
  {
    match winner
    case None => before
    case Some(i) => Some((Target(view, recs[i], env(recs[i].line)), recs[i].fields))
  }

  lemma SavedLookup(t: Table, id: Id, row: Row, key: string)
    requires UniqueKeys(t)
    requires if HasKey(t, row.key) then id == IdOf(t, row.key) else id !in t
    ensures UniqueKeys(t[id := row])
    ensures Lookup(t[id := row], key) == if key == row.key then Some((id, row.fields)) else Lookup(t, key)
  {
    SaveDisturbsNoOtherKey(t, id, row, key);
  }

  /** The first row of a quiet batch. */
  lemma HeadLookup(kind: Kind, view: Table, acc: Acc, recs: seq<Record>, env: nat -> RowEnv, key: string)
    requires UniqueKeys(view) && UniqueKeys(acc.table) && UntriedAlike(kind, view, acc)
    requires recs != [] && NoIdClash(kind, view, acc.table.Keys, acc.seen.Keys, recs, env) && QuietRows(env)
    ensures var rec := recs[0];
      var r := StepRow(kind, view, acc, rec, env(rec.line));
      && r.Returned? && r.value.seen.Keys == acc.seen.Keys + {kind.canon(rec.key)}
      && Lookup(r.value.table, key)
         == if kind.canon(rec.key) !in acc.seen && kind.Accepts(rec) && key == rec.key
            then Some((Target(view, rec, env(rec.line)), rec.fields)) else Lookup(acc.table, key)
  {
    var rec := recs[0];
    if kind.canon(rec.key) !in acc.seen && kind.Accepts(rec) {
      assert !HasKey(view, rec.key) <==> CreatesAfter(kind, view, acc.seen.Keys, recs, 0);
      assert NewIdAt(recs, env, 0) == NewId(rec, env(rec.line));
      assert SameLookup(view, acc.table, rec.key);
      var id := Target(view, rec, env(rec.line));
      SavedLookup(acc.table, id, Row(rec.key, rec.fields), key);
      SaveDisturbsNoOtherKey(acc.table, id, Row(rec.key, rec.fields), key);
      assert env(rec.line).savepoint.None?;
    }
  }

  /** A quiet batch without id clashes changes exactly the keys that have a winner, to the winner's
      columns, keeping the id of a stored row. */
  lemma {:induction false} BatchLookup(kind: Kind, view: Table, acc: Acc, recs: seq<Record>, env: nat -> RowEnv,
                                       key: string)
    requires UniqueKeys(view) && UniqueKeys(acc.table) && UntriedAlike(kind, view, acc)
    requires NoIdClash(kind, view, acc.table.Keys, acc.seen.Keys, recs, env) && QuietRows(env)
    ensures var r := FastFold(kind, view, acc, recs, env);
      && r.Returned? && UniqueKeys(r.value.table)
      && Lookup(r.value.table, key)
         == AfterWinner(view, Lookup(acc.table, key), recs, env, Winner(kind, acc.seen.Keys, recs, key))
    decreases |recs|
  {
    if recs != [] {
      var rec := recs[0];
      HeadAgrees(kind, view, acc, recs, env);
      HeadLookup(kind, view, acc, recs, env, key);
      var next := StepRow(kind, view, acc, rec, env(rec.line)).value;
      BatchLookup(kind, view, next, recs[1..], env, key);
      if kind.canon(rec.key) !in acc.seen && rec.key == key {
        NoWinnerForSeen(kind, next.seen.Keys, recs[1..], key);
      }
    }
  }

  // ---------------------------------------------------------------------------------------
  // Any quiet batch
  // ---------------------------------------------------------------------------------------

  /** A key is found as it was, or not at all. */
  predicate KeptOrLost(before: Table, after: Table, key: string)
    requires UniqueKeys(before) && UniqueKeys(after)
  {
    HasKey(after, key) ==> HasKey(before, key) && IdOf(after, key) == IdOf(before, key)
  }

  /** Untried keys are only ever lost, never moved. */
  ghost predicate UntriedKeptOrLost(kind: Kind, view: Table, acc: Acc)
    requires UniqueKeys(view) && UniqueKeys(acc.table)
  {
    forall key :: kind.canon(key) !in acc.seen ==> KeptOrLost(view, acc.table, key)
  }

  lemma SaveKeepsOrLoses(t: Table, id: Id, row: Row, key: string)
    requires UniqueKeys(t) && UniqueKeys(t[id := row])
    ensures key != row.key ==> Lookup(t[id := row], key).None? || Lookup(t[id := row], key) == Lookup(t, key)
    ensures key != row.key ==> KeptOrLost(t, t[id := row], key)
    ensures Lookup(t[id := row], row.key) == Some((id, row.fields))
  {
    if key != row.key {
      SaveMovesOneKey(t, id, row, key);
    }
    assert t[id := row][id].key == row.key;
  }

  /** No quiet save is refused: a tried row without faults is stored under its target. */
  lemma QuietRowSaves(kind: Kind, view: Table, acc: Acc, rec: Record, env: RowEnv)
    requires UniqueKeys(view) && UniqueKeys(acc.table) && UntriedKeptOrLost(kind, view, acc)
    requires kind.canon(rec.key) !in acc.seen && kind.Accepts(rec)
    requires env.savepoint.None? && env.save.None? && env.release.None?
    ensures var saved := acc.table[Target(view, rec, env) := Row(rec.key, rec.fields)];
      && UniqueKeys(saved)
      && StepRow(kind, view, acc, rec, env)
         == Returned(Acc(saved, acc.seen[kind.canon(rec.key) := rec.line], acc.tally.Win()))
  {
    assert KeptOrLost(view, acc.table, rec.key);
    StepSaves(kind, view, acc, rec, env, Target(view, rec, env));
  }

  /** One row of any quiet batch: what it does to a lookup, and that ids stay. */
  lemma QuietRow(kind: Kind, view: Table, acc: Acc, rec: Record, env: RowEnv, key: string)
    requires UniqueKeys(view) && UniqueKeys(acc.table) && UntriedKeptOrLost(kind, view, acc)
    requires env.savepoint.None? && env.save.None? && env.release.None?
    ensures var r := StepRow(kind, view, acc, rec, env);
      && r.Returned? && r.value.seen.Keys == acc.seen.Keys + {kind.canon(rec.key)}
      && acc.table.Keys <= r.value.table.Keys
      && (if kind.canon(rec.key) !in acc.seen && kind.Accepts(rec) && key == rec.key
          then Lookup(r.value.table, key) == Some((Target(view, rec, env), rec.fields))
          else Lookup(r.value.table, key).None? || Lookup(r.value.table, key) == Lookup(acc.table, key))
      && UntriedKeptOrLost(kind, view, r.value)
  {
    if kind.canon(rec.key) !in acc.seen && kind.Accepts(rec) {
      var id, row := Target(view, rec, env), Row(rec.key, rec.fields);
      QuietRowSaves(kind, view, acc, rec, env);
      SaveKeepsOrLoses(acc.table, id, row, key);
      forall other | kind.canon(other) !in acc.seen && other != rec.key
        ensures KeptOrLost(view, acc.table[id := row], other)
      {
        SaveKeepsOrLoses(acc.table, id, row, other);
        assert KeptOrLost(view, acc.table, other);
      }
    }
  }

  /** Any quiet batch, id clashes or not: a key found afterwards has the columns of its winner if there
      is one, and is as it was if there is none; no id vanishes. */
  lemma {:induction false} QuietBatchLookup(kind: Kind, view: Table, acc: Acc, recs: seq<Record>, env: nat -> RowEnv,
                                            key: string)
    requires UniqueKeys(view) && UniqueKeys(acc.table) && UntriedKeptOrLost(kind, view, acc) && QuietRows(env)
    ensures var r := FastFold(kind, view, acc, recs, env);
      && r.Returned? && UniqueKeys(r.value.table) && acc.table.Keys <= r.value.table.Keys
      && var after := Lookup(r.value.table, key);
         match Winner(kind, acc.seen.Keys, recs, key)
         case None => after.None? || after == Lookup(acc.table, key)
         case Some(i) => after.Some? ==> after.value.1 == recs[i].fields
    decreases |recs|
  {
    if recs != [] {
      var rec := recs[0];
      assert env(rec.line).savepoint.None?;
      QuietRow(kind, view, acc, rec, env(rec.line), key);
      var next := StepRow(kind, view, acc, rec, env(rec.line)).value;
      QuietBatchLookup(kind, view, next, recs[1..], env, key);
      if kind.canon(rec.key) !in acc.seen && rec.key == key {
        NoWinnerForSeen(kind, next.seen.Keys, recs[1..], key);
      }
    }
  }

  /** A row that creates a record leaves its new id in the table. */
  lemma {:induction false} CreatedIdAppears(kind: Kind, view: Table, acc: Acc, recs: seq<Record>, env: nat -> RowEnv,
                                            i: nat)
    requires UniqueKeys(view) && UniqueKeys(acc.table) && UntriedKeptOrLost(kind, view, acc) && QuietRows(env)
    requires i < |recs| && CreatesAfter(kind, view, acc.seen.Keys, recs, i)
    ensures var r := FastFold(kind, view, acc, recs, env); r.Returned? && NewIdAt(recs, env, i) in r.value.table
    decreases |recs|
  {
    var rec := recs[0];
    assert env(rec.line).savepoint.None?;
    QuietRow(kind, view, acc, rec, env(rec.line), rec.key);
    var next := StepRow(kind, view, acc, rec, env(rec.line)).value;
    if i == 0 {
      QuietRowSaves(kind, view, acc, rec, env(rec.line));
      QuietBatchLookup(kind, view, next, recs[1..], env, rec.key);
    } else {
      assert recs[i] == recs[1..][i - 1];
      assert forall j :: 1 <= j < i ==> recs[j] == recs[1..][j - 1];
      assert forall j :: 0 <= j < i - 1 ==> recs[1..][j] == recs[j + 1];
      CreatedIdAppears(kind, view, next, recs[1..], env, i - 1);
    }
  }

  // ---------------------------------------------------------------------------------------
  // A whole file
  // ---------------------------------------------------------------------------------------

  /** One batch, each in its own transaction; a batch that throws leaves the table alone. */
  function ImportBatch(kind: Kind, t: Table, recs: seq<Record>, env: nat -> RowEnv): (t': Table)
    requires UniqueKeys(t)
    ensures UniqueKeys(t')
  {
    KeysStayUnique(kind, t, Acc(t, map[], ZERO), recs, env);
    var r := FastFold(kind, t, Acc(t, map[], ZERO), recs, env);
    if r.Returned? then r.value.table else t
  }

  function ImportTable(kind: Kind, t: Table, batches: seq<seq<Record>>, env: nat -> RowEnv): (t': Table)
    requires UniqueKeys(t)
    ensures UniqueKeys(t')
    decreases |batches|
  {
    if batches == [] then t else ImportTable(kind, ImportBatch(kind, t, batches[0], env), batches[1..], env)
  }

  /** No batch, run on what the ones before it left, has an id clash. */
  ghost predicate NoClashInFile(kind: Kind, t: Table, batches: seq<seq<Record>>, env: nat -> RowEnv)
    requires UniqueKeys(t)
    decreases |batches|
  {
    batches == [] ||
    (&& NoIdClash(kind, t, t.Keys, {}, batches[0], env)
     && NoClashInFile(kind, ImportBatch(kind, t, batches[0], env), batches[1..], env))
  }

  lemma ImportBatchLookup(kind: Kind, t: Table, recs: seq<Record>, env: nat -> RowEnv, key: string)
    requires UniqueKeys(t) && NoIdClash(kind, t, t.Keys, {}, recs, env) && QuietRows(env)
    ensures Lookup(ImportBatch(kind, t, recs, env), key)
         == AfterWinner(t, Lookup(t, key), recs, env, Winner(kind, {}, recs, key))
  {
    var acc := Acc(t, map[], ZERO);
    assert acc.seen.Keys == {} && acc.table.Keys == t.Keys;
    assert UntriedAlike(kind, t, acc);
    BatchLookup(kind, t, acc, recs, env, key);
    assert Lookup(acc.table, key) == Lookup(t, key);
  }

  /** The record of the last batch that decides a key. */
  function LastWinner(kind: Kind, batches: seq<seq<Record>>, key: string): (rec: Option<Record>)
    decreases |batches|
  {
    if batches == [] then None
    else
      match LastWinner(kind, batches[1..], key)
      case Some(rec) => Some(rec)
      case None =>
        match Winner(kind, {}, batches[0], key)
        case Some(i) => Some(batches[0][i])
        case None => None
  }

  /** After a file, a key no batch decides is as before; any other has the columns of the last
      batch's winner, under its old id if it had one. */
  lemma {:induction false} FileLookup(kind: Kind, t: Table, batches: seq<seq<Record>>, env: nat -> RowEnv, key: string)
    requires UniqueKeys(t) && QuietRows(env) && NoClashInFile(kind, t, batches, env)
    ensures var after := Lookup(ImportTable(kind, t, batches, env), key);
      match LastWinner(kind, batches, key)
      case None => after == Lookup(t, key)
      case Some(rec) => after.Some? && after.value.1 == rec.fields && (HasKey(t, key) ==> after.value.0 == IdOf(t, key))
    decreases |batches|
  {
    if batches != [] {
      var next := ImportBatch(kind, t, batches[0], env);
      ImportBatchLookup(kind, t, batches[0], env, key);
      FileLookup(kind, next, batches[1..], env, key);
      var w := Winner(kind, {}, batches[0], key);
      if w.Some? {
        WinnerMeaning(kind, {}, batches[0], key, w.value);
      }
    }
  }

  lemma AnyBatchLookup(kind: Kind, t: Table, recs: seq<Record>, env: nat -> RowEnv, key: string)
    requires UniqueKeys(t) && QuietRows(env)
    ensures t.Keys <= ImportBatch(kind, t, recs, env).Keys
    ensures var after := Lookup(ImportBatch(kind, t, recs, env), key);
      match Winner(kind, {}, recs, key)
      case None => after.None? || after == Lookup(t, key)
      case Some(i) => after.Some? ==> after.value.1 == recs[i].fields
  {
    var acc := Acc(t, map[], ZERO);
    assert acc.seen.Keys == {} && UntriedKeptOrLost(kind, t, acc);
    QuietBatchLookup(kind, t, acc, recs, env, key);
  }

  /** After any file, id clashes or not, a key that is still stored is as before if no batch decides it,
      and has the columns of the last batch's winner otherwise; no id vanishes. */
  lemma {:induction false} AnyFileLookup(kind: Kind, t: Table, batches: seq<seq<Record>>, env: nat -> RowEnv,
                                         key: string)
    requires UniqueKeys(t) && QuietRows(env)
    ensures t.Keys <= ImportTable(kind, t, batches, env).Keys
    ensures var after := Lookup(ImportTable(kind, t, batches, env), key);
      match LastWinner(kind, batches, key)
      case None => after.None? || after == Lookup(t, key)
      case Some(rec) => after.Some? ==> after.value.1 == rec.fields
    decreases |batches|
  {
    if batches != [] {
      AnyBatchLookup(kind, t, batches[0], env, key);
      AnyFileLookup(kind, ImportBatch(kind, t, batches[0], env), batches[1..], env, key);
    }
  }

  /** Said without the recursion: a key that is still stored at the end has the columns of its first
      valid occurrence in the last batch that has one, whatever ids clash; without clashes it is stored. */
  lemma {:induction false} KeyEndsWithLastFirstOccurrence(kind: Kind, t: Table, batches: seq<seq<Record>>,
                                                           env: nat -> RowEnv, b: nat, i: nat)
    requires UniqueKeys(t) && QuietRows(env)
    requires b < |batches| && i < |batches[b]| && Tries(kind, batches[b], i)
    requires forall b', i' :: b < b' < |batches| && 0 <= i' < |batches[b']| && batches[b'][i'].key == batches[b][i].key
               ==> !Tries(kind, batches[b'], i')
    ensures var after := Lookup(ImportTable(kind, t, batches, env), batches[b][i].key);
      && (after.Some? ==> after.value.1 == batches[b][i].fields)
      && (NoClashInFile(kind, t, batches, env) ==> after.Some?)
  {
    AnyFileLookup(kind, t, batches, env, batches[b][i].key);
    LastWinnerIs(kind, batches, b, i);
    if NoClashInFile(kind, t, batches, env) {
      FileLookup(kind, t, batches, env, batches[b][i].key);
    }
  }

  lemma {:induction false} LastWinnerIs(kind: Kind, batches: seq<seq<Record>>, b: nat, i: nat)
    requires b < |batches| && i < |batches[b]| && Tries(kind, batches[b], i)
    requires forall b', i' :: b < b' < |batches| && 0 <= i' < |batches[b']| && batches[b'][i'].key == batches[b][i].key
               ==> !Tries(kind, batches[b'], i')
    ensures LastWinner(kind, batches, batches[b][i].key) == Some(batches[b][i])
    decreases |batches|
  {
    var rest := batches[1..];
    assert forall k :: 0 <= k < |rest| ==> rest[k] == batches[k + 1];
    if b > 0 {
      LastWinnerIs(kind, rest, b - 1, i);
    } else {
      WinnerMeaning(kind, {}, batches[0], batches[b][i].key, i);
      NoLastWinner(kind, rest, batches[b][i].key);
    }
  }

  lemma {:induction false} NoLastWinner(kind: Kind, batches: seq<seq<Record>>, key: string)
    requires forall b, i :: 0 <= b < |batches| && 0 <= i < |batches[b]| && batches[b][i].key == key
               ==> !Tries(kind, batches[b], i)
    ensures LastWinner(kind, batches, key) == None
    decreases |batches|
  {
    if batches != [] {
      assert forall k :: 0 <= k < |batches[1..]| ==> batches[1..][k] == batches[k + 1];
      NoLastWinner(kind, batches[1..], key);
      var w := Winner(kind, {}, batches[0], key);
      if w.Some? {
        WinnerMeaning(kind, {}, batches[0], key, w.value);
        assert false;
      }
    }
  }

  /** A key that no batch has a first valid occurrence of is left as it was, row and id, or its row was
      taken by its id; without clashes it is left. */
  lemma UndecidedKeyUnchanged(kind: Kind, t: Table, batches: seq<seq<Record>>, env: nat -> RowEnv, key: string)
    requires UniqueKeys(t) && QuietRows(env)
    requires forall b, i :: 0 <= b < |batches| && 0 <= i < |batches[b]| && batches[b][i].key == key
               ==> !Tries(kind, batches[b], i)
    ensures var after := Lookup(ImportTable(kind, t, batches, env), key);
      && (after.None? || after == Lookup(t, key))
      && (NoClashInFile(kind, t, batches, env) ==> after == Lookup(t, key))
  {
    NoLastWinner(kind, batches, key);
    AnyFileLookup(kind, t, batches, env, key);
    if NoClashInFile(kind, t, batches, env) {
      FileLookup(kind, t, batches, env, key);
    }
  }

  // ---------------------------------------------------------------------------------------
  // Again
  // ---------------------------------------------------------------------------------------

  /** Every key the file decides is stored already. */
  ghost predicate AllStored(kind: Kind, t: Table, batches: seq<seq<Record>>) {
    forall key :: LastWinner(kind, batches, key).Some? ==> HasKey(t, key)
  }

  /** Where every key is stored no row creates a record, so no ids can clash. */
  lemma {:induction false} StoredMeansNoClash(kind: Kind, t: Table, batches: seq<seq<Record>>, env: nat -> RowEnv)
    requires UniqueKeys(t) && QuietRows(env) && AllStored(kind, t, batches)
    ensures NoClashInFile(kind, t, batches, env)
    decreases |batches|
  {
    if batches != [] {
      forall i | 0 <= i < |batches[0]|
        ensures !CreatesAfter(kind, t, {}, batches[0], i)
      {
        WinnerMeaning(kind, {}, batches[0], batches[0][i].key, i);
        assert Tries(kind, batches[0], i) ==> LastWinner(kind, batches, batches[0][i].key).Some?;
      }
      assert NoIdClash(kind, t, t.Keys, {}, batches[0], env);
      var next := ImportBatch(kind, t, batches[0], env);
      forall key | LastWinner(kind, batches[1..], key).Some?
        ensures HasKey(next, key)
      {
        assert LastWinner(kind, batches, key).Some?;
        ImportBatchLookup(kind, t, batches[0], env, key);
      }
      StoredMeansNoClash(kind, next, batches[1..], env);
    }
  }

  /** Importing the same batches again, with whatever ids would be generated then, leaves the very same
      rows, if every key the file decides is stored after the first time. */
  lemma ImportTwiceIsImportOnce(kind: Kind, t: Table, batches: seq<seq<Record>>, env: nat -> RowEnv,
                                again: nat -> RowEnv)
    requires UniqueKeys(t) && QuietRows(env) && QuietRows(again)
    requires AllStored(kind, ImportTable(kind, t, batches, env), batches)
    ensures ImportTable(kind, ImportTable(kind, t, batches, env), batches, again) == ImportTable(kind, t, batches, env)
  {
    var once := ImportTable(kind, t, batches, env);
    StoredMeansNoClash(kind, once, batches, again);
    var twice := ImportTable(kind, once, batches, again);
    forall key
      ensures Lookup(twice, key) == Lookup(once, key)
    {
      AnyFileLookup(kind, t, batches, env, key);
      FileLookup(kind, once, batches, again, key);
    }
    LookupsDetermine(twice, once);
  }

  /** Without id clashes the first time, that is so. */
  lemma NoClashMeansStored(kind: Kind, t: Table, batches: seq<seq<Record>>, env: nat -> RowEnv)
    requires UniqueKeys(t) && QuietRows(env) && NoClashInFile(kind, t, batches, env)
    ensures AllStored(kind, ImportTable(kind, t, batches, env), batches)
  {
    forall key | LastWinner(kind, batches, key).Some?
      ensures HasKey(ImportTable(kind, t, batches, env), key)
    {
      FileLookup(kind, t, batches, env, key);
    }
  }

  /** Rows tried for a key the table lacks supply no id it holds. */
  ghost predicate MissingSupplyNew(kind: Kind, t: Table, batches: seq<seq<Record>>) {
    forall b, i :: 0 <= b < |batches| && 0 <= i < |batches[b]| && Creates(kind, t, batches[b], i) ==>
        batches[b][i].id.None? || batches[b][i].id.value !in t
  }

  /** Where a key the file decides is not stored, the import leaves an id the table lacked. */
  lemma {:induction false} MissingKeyAddsId(kind: Kind, once: Table, t: Table, batches: seq<seq<Record>>,
                                            again: nat -> RowEnv)
    returns (id: Id)
    requires UniqueKeys(once) && UniqueKeys(t) && QuietRows(again)
    requires forall key :: HasKey(t, key) <==> HasKey(once, key)
    requires FreshIds(once, again) && MissingSupplyNew(kind, once, batches) && !AllStored(kind, once, batches)
    ensures id in ImportTable(kind, t, batches, again) && id !in once
    decreases |batches|
  {
    var first, rest := batches[0], batches[1..];
    var next := ImportBatch(kind, t, first, again);
    if i :| 0 <= i < |first| && Creates(kind, t, first, i) {
      id := NewIdAt(first, again, i);
      var acc := Acc(t, map[], ZERO);
      assert acc.seen.Keys == {} && UntriedKeptOrLost(kind, t, acc);
      CreatedIdAppears(kind, t, acc, first, again, i);
      assert id !in once;
      AnyFileLookup(kind, next, rest, again, "");
    } else {
      assert NoIdClash(kind, t, t.Keys, {}, first, again);
      forall key
        ensures HasKey(next, key) <==> HasKey(t, key)
      {
        ImportBatchLookup(kind, t, first, again, key);
        var w := Winner(kind, {}, first, key);
        if w.Some? {
          WinnerMeaning(kind, {}, first, key, w.value);
          assert !Creates(kind, t, first, w.value);
        }
      }
      RestMisses(kind, once, t, batches);
      assert forall k :: 0 <= k < |rest| ==> rest[k] == batches[k + 1];
      id := MissingKeyAddsId(kind, once, next, rest, again);
    }
  }

  lemma RestMisses(kind: Kind, once: Table, t: Table, batches: seq<seq<Record>>)
    requires batches != [] && !AllStored(kind, once, batches)
    requires forall key :: HasKey(t, key) <==> HasKey(once, key)
    requires forall i :: 0 <= i < |batches[0]| ==> !Creates(kind, t, batches[0], i)
    ensures !AllStored(kind, once, batches[1..])
  {
    var key :| LastWinner(kind, batches, key).Some? && !HasKey(once, key);
    var w := Winner(kind, {}, batches[0], key);
    if w.Some? {
      WinnerMeaning(kind, {}, batches[0], key, w.value);
      assert Creates(kind, t, batches[0], w.value);
      assert false;
    }
  }

  /** When a second import changes nothing, exactly: given that it draws new ids and that rows for
      missing keys supply none that is stored, if and only if every key the file decides is stored. */
  lemma ImportTwiceIffStored(kind: Kind, t: Table, batches: seq<seq<Record>>, env: nat -> RowEnv,
                             again: nat -> RowEnv)
    requires UniqueKeys(t) && QuietRows(env) && QuietRows(again)
    requires var once := ImportTable(kind, t, batches, env);
      FreshIds(once, again) && MissingSupplyNew(kind, once, batches)
    ensures var once := ImportTable(kind, t, batches, env);
      ImportTable(kind, once, batches, again) == once <==> AllStored(kind, once, batches)
  {
    var once := ImportTable(kind, t, batches, env);
    if AllStored(kind, once, batches) {
      ImportTwiceIsImportOnce(kind, t, batches, env, again);
    } else {
      var id := MissingKeyAddsId(kind, once, once, batches, again);
    }
  }

  /** A quiet batch of two rows under different keys. */
  lemma TwoRows(kind: Kind, t: Table, p: Record, q: Record, env: nat -> RowEnv)
    requires UniqueKeys(t) && QuietRows(env) && kind.Accepts(p) && kind.Accepts(q)
    requires kind.canon(p.key) != kind.canon(q.key)
    ensures ImportBatch(kind, t, [p, q], env)
         == t[Target(t, p, env(p.line)) := Row(p.key, p.fields)][Target(t, q, env(q.line)) := Row(q.key, q.fields)]
  {
    var start := Acc(t, map[], ZERO);
    assert env(p.line).savepoint.None? && env(q.line).savepoint.None?;
    QuietRowSaves(kind, t, start, p, env(p.line));
    QuietRow(kind, t, start, p, env(p.line), p.key);
    var mid := StepRow(kind, t, start, p, env(p.line)).value;
    QuietRowSaves(kind, t, mid, q, env(q.line));
    var end := StepRow(kind, t, mid, q, env(q.line)).value;
    assert [p, q][1..] == [q] && [q][1..] == [];
    assert FastFold(kind, t, mid, [q], env) == FastFold(kind, t, end, [], env);
  }

  /** Re-import can duplicate. In any table, row `x` is stored under key `b`; a batch first updates `b`
      and then renames its row to `a` by supplying its id. The first import ends with that row under
      `a`; the second no longer finds `b` and stores it once more. */
  lemma RenameBreaksReimport(kind: Kind, t: Table, a: string, b: string, x: Id, g: Fields, h: Fields,
                             env: nat -> RowEnv, again: nat -> RowEnv)
    requires UniqueKeys(t) && x in t && t[x].key == b && !HasKey(t, a) && kind.canon(a) != kind.canon(b)
    requires kind.Accepts(Record(1, None, b, h)) && kind.Accepts(Record(2, Some(x), a, g))
    requires QuietRows(env) && QuietRows(again) && again(1).uuid !in t
    ensures var file := [[Record(1, None, b, h), Record(2, Some(x), a, g)]];
      var once := ImportTable(kind, t, file, env);
      && once == t[x := Row(a, g)]
      && ImportTable(kind, once, file, again) == once[again(1).uuid := Row(b, h)]
      && again(1).uuid !in once
  {
    var p, q := Record(1, None, b, h), Record(2, Some(x), a, g);
    var once := t[x := Row(a, g)];
    OneBatch(kind, t, [p, q], env);
    RenamesFirst(kind, t, p, q, x, env);
    assert HasKey(once, a) && IdOf(once, a) == x by {
      assert once[x].key == a;
    }
    assert !HasKey(once, b);
    OneBatch(kind, once, [p, q], again);
    StoresAgain(kind, once, p, q, x, again);
    assert again(1).uuid !in once;
  }

  lemma OneBatch(kind: Kind, t: Table, recs: seq<Record>, env: nat -> RowEnv)
    requires UniqueKeys(t)
    ensures ImportTable(kind, t, [recs], env) == ImportBatch(kind, t, recs, env)
  {
    assert [recs][1..] == [];
    assert ImportTable(kind, ImportBatch(kind, t, recs, env), [], env) == ImportBatch(kind, t, recs, env);
  }

  lemma RenamesFirst(kind: Kind, t: Table, p: Record, q: Record, x: Id, env: nat -> RowEnv)
    requires UniqueKeys(t) && x in t && t[x].key == p.key && !HasKey(t, q.key) && q.id == Some(x)
    requires kind.canon(q.key) != kind.canon(p.key) && kind.Accepts(p) && kind.Accepts(q) && QuietRows(env)
    ensures UniqueKeys(t[x := Row(q.key, q.fields)])
    ensures ImportBatch(kind, t, [p, q], env) == t[x := Row(q.key, q.fields)]
  {
    TwoRows(kind, t, p, q, env);
    assert IdOf(t, p.key) == x;
    SavedOver(t, x, Row(p.key, p.fields), Row(q.key, q.fields));
  }

  lemma StoresAgain(kind: Kind, t: Table, p: Record, q: Record, x: Id, env: nat -> RowEnv)
    requires UniqueKeys(t) && x in t && t[x] == Row(q.key, q.fields) && !HasKey(t, p.key) && p.id == None
    requires kind.canon(q.key) != kind.canon(p.key) && kind.Accepts(p) && kind.Accepts(q) && QuietRows(env)
    requires env(p.line).uuid !in t
    ensures ImportBatch(kind, t, [p, q], env) == t[env(p.line).uuid := Row(p.key, p.fields)]
  {
    TwoRows(kind, t, p, q, env);
    assert IdOf(t, q.key) == x;
    var y := env(p.line).uuid;
    assert t[y := Row(p.key, p.fields)][x := Row(q.key, q.fields)] == t[y := Row(p.key, p.fields)];
  }

  /** Why the exact form asks what missing keys' rows supply: a batch that renames row `x` from `b` to `a`
      and back leaves `a` unstored, and yet a second import changes nothing. */
  lemma RenamedBackIsIdempotent(kind: Kind, t: Table, a: string, b: string, x: Id, g: Fields, h: Fields,
                                env: nat -> RowEnv, again: nat -> RowEnv)
    requires UniqueKeys(t) && x in t && t[x].key == b && !HasKey(t, a) && kind.canon(a) != kind.canon(b)
    requires kind.Accepts(Record(1, Some(x), a, g)) && kind.Accepts(Record(2, None, b, h))
    requires QuietRows(env) && QuietRows(again)
    ensures var file := [[Record(1, Some(x), a, g), Record(2, None, b, h)]];
      var once := ImportTable(kind, t, file, env);
      && once == t[x := Row(b, h)] && ImportTable(kind, once, file, again) == once
      && LastWinner(kind, file, a).Some? && !AllStored(kind, once, file)
  {
    var p, q := Record(1, Some(x), a, g), Record(2, None, b, h);
    var once := t[x := Row(b, h)];
    OneBatch(kind, t, [p, q], env);
    RenamesBack(kind, t, p, q, x, env);
    assert !HasKey(once, a);
    OneBatch(kind, once, [p, q], again);
    RenamesBack(kind, once, p, q, x, again);
    assert once[x := Row(b, h)] == once;
    WinnerMeaning(kind, {}, [p, q], a, 0);
    assert [[p, q]][1..] == [];
  }

  lemma RenamesBack(kind: Kind, t: Table, p: Record, q: Record, x: Id, env: nat -> RowEnv)
    requires UniqueKeys(t) && x in t && t[x].key == q.key && !HasKey(t, p.key) && p.id == Some(x)
    requires kind.canon(q.key) != kind.canon(p.key) && kind.Accepts(p) && kind.Accepts(q) && QuietRows(env)
    ensures UniqueKeys(t[x := Row(q.key, q.fields)])
    ensures ImportBatch(kind, t, [p, q], env) == t[x := Row(q.key, q.fields)]
  {
    TwoRows(kind, t, p, q, env);
    assert IdOf(t, q.key) == x;
    SavedOver(t, x, Row(p.key, p.fields), Row(q.key, q.fields));
  }

  // ---------------------------------------------------------------------------------------
  // The import itself
  // ---------------------------------------------------------------------------------------

  ghost predicate Quiet(env: Env) {
    && QuietRows(env.row)
    && (forall n :: env.batch(n) == BatchEnv(None, None, None, None, None, None))
  }

  /** The valid records of each batch. */
  function Validated<D>(imp: Importer<D>, batches: seq<seq<Entry<D>>>): (recs: seq<seq<Record>>)
    ensures |recs| == |batches|
    ensures forall b :: 0 <= b < |batches| ==> recs[b] == ValidRecords(imp, RawsOf(batches[b]))
  {
    seq(|batches|, b requires 0 <= b < |batches| => ValidRecords(imp, RawsOf(batches[b])))
  }

  function KindOf<D>(imp: Importer<D>, db: Database): (kind: Kind) {
    if imp.resource == Users then UserKind(imp.lower) else ArticleKind(db.users.Keys)
  }

  function KeyedTable<D>(imp: Importer<D>, db: Database): (t: Table) {
    if imp.resource == Users then db.users else db.articles
  }

  function WithTable<D>(imp: Importer<D>, db: Database, t: Table): (db': Database) {
    if imp.resource == Users then db.(users := t) else db.(articles := t)
  }

  lemma {:induction false} QuietFoldReturns(kind: Kind, view: Table, acc: Acc, recs: seq<Record>, env: nat -> RowEnv)
    requires UniqueKeys(view) && QuietRows(env)
    ensures FastFold(kind, view, acc, recs, env).Returned?
    decreases |recs|
  {
    if recs != [] {
      var line := recs[0].line;
      assert env(line).rollback.None?;
      QuietFoldReturns(kind, view, StepRow(kind, view, acc, recs[0], env(line)).value, recs[1..], env);
    }
  }

  lemma QuietBatch<D>(imp: Importer<D>, db: Database, raws: seq<Raw<D>>, env: Env, number: nat)
    requires Sound(db) && Quiet(env) && imp.resource != Comments
    ensures var end := ProcessBatch(imp, db, raws, env.row, env.batch(number));
      && end.outcome.Returned?
      && end.db
          == WithTable(imp, db, ImportBatch(KindOf(imp, db), KeyedTable(imp, db), ValidRecords(imp, raws), env.row))
  {
    var t := KeyedTable(imp, db);
    QuietFoldReturns(KindOf(imp, db), t, Acc(t, map[], ZERO), ValidRecords(imp, raws), env.row);
  }

  /** A quiet run of users or articles is the table import of its valid records, and touches no
      other table. */
  lemma {:induction false} RunIsImport<D>(imp: Importer<D>, pace: Pace, db: Database, t: Totals,
                                          batches: seq<seq<Entry<D>>>, number: nat, env: Env)
    requires Sound(db) && Quiet(env) && imp.resource != Comments
    ensures var end := RunBatches(imp, pace, db, t, batches, number, env);
      && end.outcome.Returned?
      && end.db
          == WithTable(imp, db, ImportTable(KindOf(imp, db), KeyedTable(imp, db), Validated(imp, batches), env.row))
    decreases |batches|
  {
    if batches != [] {
      var raws := RawsOf(batches[0]);
      QuietBatch(imp, db, raws, env, number);
      BatchKeepsKeys(imp, db, raws, env.row, env.batch(number));
      var end := ProcessBatch(imp, db, raws, env.row, env.batch(number));
      assert Validated(imp, batches)[1..] == Validated(imp, batches[1..]);
      RunIsImport(imp, pace, end.db, AddBatch(t, batches[0], end.outcome.value), batches[1..], number + 1, env);
    }
  }

  /** Re-import of users or articles: a second run over the same file leaves the whole database as the
      first run left it if every key the file decides is stored by then. Where the second run draws new
      ids and rows for missing keys supply none that is stored, it does so only then. Without id clashes
      in the first run it always does. */
  lemma ReimportIsIdempotent<D>(imp: Importer<D>, pace: Pace, db: Database, batches: seq<seq<Entry<D>>>, env: Env,
                                again: Env)
    requires Sound(db) && Quiet(env) && Quiet(again) && imp.resource != Comments
    ensures var once := RunBatches(imp, pace, db, NOTHING, batches, 1, env).db;
      && Sound(once)
      && var kind, t, recs := KindOf(imp, once), KeyedTable(imp, once), Validated(imp, batches);
         var same := RunBatches(imp, pace, once, NOTHING, batches, 1, again).db == once;
         && (AllStored(kind, t, recs) ==> same)
         && (FreshIds(t, again.row) && MissingSupplyNew(kind, t, recs) ==>
               (same <==> AllStored(kind, t, recs)))
         && (NoClashInFile(KindOf(imp, db), KeyedTable(imp, db), recs, env.row) ==> same)
  {
    RunIsImport(imp, pace, db, NOTHING, batches, 1, env);
    var once := RunBatches(imp, pace, db, NOTHING, batches, 1, env).db;
    RunIsImport(imp, pace, once, NOTHING, batches, 1, again);
    TwiceByTable(KindOf(imp, db), KeyedTable(imp, db), Validated(imp, batches), env.row, again.row);
    assert KindOf(imp, once) == KindOf(imp, db);
  }

  /** The same for the one table the run writes. */
  lemma TwiceByTable(kind: Kind, t: Table, batches: seq<seq<Record>>, env: nat -> RowEnv, again: nat -> RowEnv)
    requires UniqueKeys(t) && QuietRows(env) && QuietRows(again)
    ensures var once := ImportTable(kind, t, batches, env);
      var same := ImportTable(kind, once, batches, again) == once;
      && (AllStored(kind, once, batches) ==> same)
      && (FreshIds(once, again) && MissingSupplyNew(kind, once, batches) ==>
            (same <==> AllStored(kind, once, batches)))
      && (NoClashInFile(kind, t, batches, env) ==> same)
  {
    var once := ImportTable(kind, t, batches, env);
    if NoClashInFile(kind, t, batches, env) {
      NoClashMeansStored(kind, t, batches, env);
    }
    if AllStored(kind, once, batches) {
      ImportTwiceIsImportOnce(kind, t, batches, env, again);
    }
    if FreshIds(once, again) && MissingSupplyNew(kind, once, batches) {
      ImportTwiceIffStored(kind, t, batches, env, again);
    }
  }

  // ---------------------------------------------------------------------------------------
  // Comments
  // ---------------------------------------------------------------------------------------

  /** What a list of comment records writes, later ones over earlier ones of the same id. */
  function Writes(db: Database, recs: seq<Record>, env: nat -> RowEnv): (w: Comments) {
    if recs == [] then map[]
    else Write(db, recs[0], env(recs[0].line)) + Writes(db, recs[1..], env)
  }

  function FileWrites(db: Database, batches: seq<seq<Record>>, env: nat -> RowEnv): (w: Comments) {
    if batches == [] then map[] else Writes(db, batches[0], env) + FileWrites(db, batches[1..], env)
  }

  lemma OverlayAssociates(a: Comments, b: Comments, c: Comments)
    ensures (a + b) + c == a + (b + c)
    ensures a + map[] == a && map[] + a == a
  {
  }

  /** What one record writes. */
  function Write(db: Database, rec: Record, env: RowEnv): (w: Comments) {
    if AcceptedComment(db, rec) then map[CommentTarget(rec, env) := rec.fields] else map[]
  }

  lemma QuietComment(db: Database, acc: CommentAcc, rec: Record, env: RowEnv)
    requires env.savepoint.None? && env.find.None? && env.save.None? && env.release.None?
    ensures var r := StepComment(db.articles.Keys, db.users.Keys, acc, rec, env);
            r.Returned? && r.value.table == acc.table + Write(db, rec, env)
  {
    OverlayAssociates(acc.table, map[], map[]);
  }

  lemma {:induction false} QuietComments(db: Database, acc: CommentAcc, recs: seq<Record>, env: nat -> RowEnv)
    requires QuietRows(env)
    ensures var r := CommentFold(db.articles.Keys, db.users.Keys, acc, recs, env);
            r.Returned? && r.value.table == acc.table + Writes(db, recs, env)
    decreases |recs|
  {
    if recs == [] {
      OverlayAssociates(acc.table, map[], map[]);
    } else {
      var env0 := env(recs[0].line);
      assert env0.savepoint.None?;
      QuietComment(db, acc, recs[0], env0);
      var next := StepComment(db.articles.Keys, db.users.Keys, acc, recs[0], env0).value;
      QuietComments(db, next, recs[1..], env);
      OverlayAssociates(acc.table, Write(db, recs[0], env0), Writes(db, recs[1..], env));
    }
  }

  lemma QuietCommentBatch<D>(imp: Importer<D>, db: Database, raws: seq<Raw<D>>, env: Env, number: nat)
    requires Sound(db) && Quiet(env) && imp.resource == Comments
    ensures var end := ProcessBatch(imp, db, raws, env.row, env.batch(number));
      && end.outcome.Returned?
      && end.db == db.(comments := db.comments + Writes(db, ValidRecords(imp, raws), env.row))
  {
    QuietComments(db, CommentAcc(db.comments, ZERO), ValidRecords(imp, raws), env.row);
    assert db.comments + map[] == db.comments;
  }

  lemma {:induction false} SameReferences(db: Database, other: Database, batches: seq<seq<Record>>, env: nat -> RowEnv)
    requires db.articles == other.articles && db.users == other.users
    ensures FileWrites(db, batches, env) == FileWrites(other, batches, env)
  {
    if batches != [] {
      SameWrites(db, other, batches[0], env);
      SameReferences(db, other, batches[1..], env);
    }
  }

  lemma {:induction false} SameWrites(db: Database, other: Database, recs: seq<Record>, env: nat -> RowEnv)
    requires db.articles == other.articles && db.users == other.users
    ensures Writes(db, recs, env) == Writes(other, recs, env)
  {
    if recs != [] {
      SameWrites(db, other, recs[1..], env);
    }
  }

  /** A quiet run of comments lays the file's writes over the stored comments. */
  lemma {:induction false} RunComments<D>(imp: Importer<D>, pace: Pace, db: Database, t: Totals,
                                          batches: seq<seq<Entry<D>>>, number: nat, env: Env)
    requires Sound(db) && Quiet(env) && imp.resource == Comments
    ensures var end := RunBatches(imp, pace, db, t, batches, number, env);
      && end.outcome.Returned?
      && end.db == db.(comments := db.comments + FileWrites(db, Validated(imp, batches), env.row))
    decreases |batches|
  {
    if batches == [] {
      assert db.comments + map[] == db.comments;
    } else {
      var raws := RawsOf(batches[0]);
      QuietCommentBatch(imp, db, raws, env, number);
      BatchKeepsKeys(imp, db, raws, env.row, env.batch(number));
      var end := ProcessBatch(imp, db, raws, env.row, env.batch(number));
      var rest := Validated(imp, batches[1..]);
      assert Validated(imp, batches)[1..] == rest;
      RunComments(imp, pace, end.db, AddBatch(t, batches[0], end.outcome.value), batches[1..], number + 1, env);
      SameReferences(db, end.db, rest, env.row);
      var first := Writes(db, ValidRecords(imp, raws), env.row);
      OverlayAssociates(db.comments, first, FileWrites(db, rest, env.row));
    }
  }

  predicate AllIdentified(db: Database, batches: seq<seq<Record>>) {
    forall b, i :: 0 <= b < |batches| && 0 <= i < |batches[b]| && AcceptedComment(db, batches[b][i]) ==>
        batches[b][i].id.Some?
  }

  lemma {:induction false} IdentifiedWrites(db: Database, recs: seq<Record>, env: nat -> RowEnv, again: nat -> RowEnv)
    requires forall i :: 0 <= i < |recs| && AcceptedComment(db, recs[i]) ==> recs[i].id.Some?
    ensures Writes(db, recs, env) == Writes(db, recs, again)
  {
    if recs != [] {
      IdentifiedWrites(db, recs[1..], env, again);
    }
  }

  lemma {:induction false} IdentifiedFileWrites(db: Database, batches: seq<seq<Record>>, env: nat -> RowEnv,
                                                again: nat -> RowEnv)
    requires AllIdentified(db, batches)
    ensures FileWrites(db, batches, env) == FileWrites(db, batches, again)
  {
    if batches != [] {
      IdentifiedWrites(db, batches[0], env, again);
      assert forall k :: 0 <= k < |batches[1..]| ==> batches[1..][k] == batches[k + 1];
      IdentifiedFileWrites(db, batches[1..], env, again);
    }
  }

  lemma {:induction false} AnonymousIsWritten(db: Database, recs: seq<Record>, env: nat -> RowEnv, i: nat)
    requires i < |recs| && AcceptedComment(db, recs[i]) && recs[i].id.None?
    ensures env(recs[i].line).uuid in Writes(db, recs, env)
  {
    if i > 0 {
      AnonymousIsWritten(db, recs[1..], env, i - 1);
    }
  }

  lemma {:induction false} AnonymousIsInFile(db: Database, batches: seq<seq<Record>>, env: nat -> RowEnv, b: nat,
                                             i: nat)
    requires b < |batches| && i < |batches[b]| && AcceptedComment(db, batches[b][i]) && batches[b][i].id.None?
    ensures env(batches[b][i].line).uuid in FileWrites(db, batches, env)
  {
    if b > 0 {
      AnonymousIsInFile(db, batches[1..], env, b - 1, i);
    } else {
      AnonymousIsWritten(db, batches[0], env, i);
    }
  }

  /** For comments a second import, drawing new ids, leaves the database as it was exactly when every
      comment the file adds carries its own id; any other comment is stored once more. */
  lemma CommentReimportIdempotentIffIdentified<D>(imp: Importer<D>, pace: Pace, db: Database,
                                                  batches: seq<seq<Entry<D>>>, env: Env, again: Env)
    requires Sound(db) && Quiet(env) && Quiet(again) && imp.resource == Comments
    requires forall line :: again.row(line).uuid !in RunBatches(imp, pace, db, NOTHING, batches, 1, env).db.comments
    ensures var once := RunBatches(imp, pace, db, NOTHING, batches, 1, env).db;
      && Sound(once)
      && (RunBatches(imp, pace, once, NOTHING, batches, 1, again).db == once
          <==> AllIdentified(db, Validated(imp, batches)))
  {
    var recs := Validated(imp, batches);
    RunComments(imp, pace, db, NOTHING, batches, 1, env);
    var once := RunBatches(imp, pace, db, NOTHING, batches, 1, env).db;
    assert Sound(once);
    RunComments(imp, pace, once, NOTHING, batches, 1, again);
    SameReferences(db, once, recs, again.row);
    assert RunBatches(imp, pace, once, NOTHING, batches, 1, again).db
        == once.(comments := once.comments + FileWrites(db, recs, again.row));
    OverlayUnchanged(db, recs, env.row, again.row, once.comments);
  }

  lemma OverlayUnchanged(db: Database, recs: seq<seq<Record>>, env: nat -> RowEnv, again: nat -> RowEnv, once: Comments)
    requires once == db.comments + FileWrites(db, recs, env)
    requires forall line :: again(line).uuid !in once
    ensures once + FileWrites(db, recs, again) == once <==> AllIdentified(db, recs)
  {
    if AllIdentified(db, recs) {
      IdentifiedFileWrites(db, recs, env, again);
      var w := FileWrites(db, recs, env);
      assert (db.comments + w) + w == db.comments + w;
    } else {
      var b, i :| 0 <= b < |recs| && 0 <= i < |recs[b]| && AcceptedComment(db, recs[b][i]) && recs[b][i].id.None?;
      AnonymousIsInFile(db, recs, again, b, i);
      assert again(recs[b][i].line).uuid in once + FileWrites(db, recs, again);
    }
  }
}
