/** What the three file loops of `imports.service.ts` have in common, over whole files. */
module ImportFiles {
  import opened Wrappers
  import opened StreamUtils
  import opened Upserts
  import opened Imports
  import opened ImportsService

  // ---------------------------------------------------------------------------------------
  // CSV and JSON
  // ---------------------------------------------------------------------------------------

  /** The batches one after the other, without progress reports. */
  function PlainRun<D>(imp: Importer<D>, db: Database, t: Totals, batches: seq<seq<Entry<D>>>, number: nat, env: Env)
    : (r: End<Totals>)
    requires UniqueKeys(db.users) && UniqueKeys(db.articles)
    decreases |batches|
  {
    if batches == [] then End(db, Returned(t))
    else
      var end := ProcessBatch(imp, db, RawsOf(batches[0]), env.row, env.batch(number));
      BatchKeepsKeys(imp, db, RawsOf(batches[0]), env.row, env.batch(number));
      if end.outcome.Thrown? then End(end.db, Thrown(end.outcome.message))
      else PlainRun(imp, end.db, AddBatch(t, batches[0], end.outcome.value), batches[1..], number + 1, env)
  }

  predicate ReportThrows(pace: Pace, number: nat, env: Env)
  {
    pace.Due(number) && env.batch(number).progress.Some?
  }

  /** How many of `count` batches, the first being `number`, come before or with the first report that
      throws. */
  function Reported(pace: Pace, count: nat, number: nat, env: Env): (n: nat)
    ensures n <= count
    ensures n < count ==> n > 0 && ReportThrows(pace, number + n - 1, env)
    ensures forall k :: number <= k < number + n - 1 ==> !ReportThrows(pace, k, env)
  {
    if count == 0 then 0
    else if ReportThrows(pace, number, env) then 1
    else 1 + Reported(pace, count - 1, number + 1, env)
  }

  /** What is left of a plain run once the report after its last batch has been made. */
  function AfterReport(pace: Pace, plain: End<Totals>, number: nat, env: Env): (r: End<Totals>)
  {
    if plain.outcome.Returned? && ReportThrows(pace, number, env)
    then End(plain.db, Thrown(env.batch(number).progress.value)) else plain
  }

  lemma PlainHead<D>(imp: Importer<D>, db: Database, t: Totals, batches: seq<seq<Entry<D>>>, n: nat, number: nat,
                     env: Env)
    requires Sound(db) && 0 < n <= |batches|
    ensures var end := ProcessBatch(imp, db, RawsOf(batches[0]), env.row, env.batch(number));
      && Sound(end.db)
      && PlainRun(imp, db, t, batches[..n], number, env)
         == if end.outcome.Thrown? then End(end.db, Thrown(end.outcome.message))
            else
              var next := AddBatch(t, batches[0], end.outcome.value);
              PlainRun(imp, end.db, next, batches[1..][..n - 1], number + 1, env)
  {
    BatchKeepsKeys(imp, db, RawsOf(batches[0]), env.row, env.batch(number));
    assert batches[..n][0] == batches[0] && batches[..n][1..] == batches[1..][..n - 1];
  }

  /** `run` ends as the plain run of its first `n` batches, the first being `number`, and the report
      after them. */
  predicate EndsAs(pace: Pace, run: End<Totals>, plain: End<Totals>, n: nat, number: nat, env: Env) {
    run == if n > 0 then AfterReport(pace, plain, number + n - 1, env) else plain
  }

  lemma EndsLater(pace: Pace, run: End<Totals>, plain: End<Totals>, m: nat, number: nat, env: Env)
    requires !ReportThrows(pace, number, env) && EndsAs(pace, run, plain, m, number + 1, env)
    ensures EndsAs(pace, run, plain, m + 1, number, env)
  {
  }

  /** A run is the plain run of the batches up to the first report that throws, and ends as that does
      unless it gets to that report. */
  predicate IsPlain<D>(imp: Importer<D>, pace: Pace, db: Database, t: Totals, batches: seq<seq<Entry<D>>>, number: nat,
                       env: Env)
    requires UniqueKeys(db.users) && UniqueKeys(db.articles)
  {
    var n := Reported(pace, |batches|, number, env);
    EndsAs(pace, RunBatches(imp, pace, db, t, batches, number, env), PlainRun(imp, db, t, batches[..n], number, env), n,
           number, env)
  }

  lemma StopsAtOnce<D>(imp: Importer<D>, pace: Pace, db: Database, t: Totals, batches: seq<seq<Entry<D>>>, number: nat,
                       env: Env)
    requires Sound(db) && batches != []
    requires ProcessBatch(imp, db, RawsOf(batches[0]), env.row, env.batch(number)).outcome.Thrown?
             || ReportThrows(pace, number, env)
    ensures IsPlain(imp, pace, db, t, batches, number, env)
  {
    var n := Reported(pace, |batches|, number, env);
    RunHead(imp, pace, db, t, batches, number, env);
    PlainHead(imp, db, t, batches, n, number, env);
    if ReportThrows(pace, number, env) {
      assert batches[1..][..0] == [];
    }
  }

  lemma RunsOn<D>(imp: Importer<D>, pace: Pace, db: Database, t: Totals, batches: seq<seq<Entry<D>>>, number: nat,
                  env: Env, end: End<Tally>)
    requires Sound(db) && batches != [] && end == ProcessBatch(imp, db, RawsOf(batches[0]), env.row, env.batch(number))
    requires end.outcome.Returned? && !ReportThrows(pace, number, env) && Sound(end.db)
    ensures RunBatches(imp, pace, db, t, batches, number, env)
         == RunBatches(imp, pace, end.db, AddBatch(t, batches[0], end.outcome.value), batches[1..], number + 1, env)
  {
    RunHead(imp, pace, db, t, batches, number, env);
  }

  lemma PlainRunsOn<D>(imp: Importer<D>, db: Database, t: Totals, batches: seq<seq<Entry<D>>>, m: nat, number: nat,
                       env: Env, end: End<Tally>)
    requires Sound(db) && m < |batches| && end == ProcessBatch(imp, db, RawsOf(batches[0]), env.row, env.batch(number))
    requires end.outcome.Returned? && Sound(end.db)
    ensures PlainRun(imp, db, t, batches[..m + 1], number, env)
         == PlainRun(imp, end.db, AddBatch(t, batches[0], end.outcome.value), batches[1..][..m], number + 1, env)
  {
    PlainHead(imp, db, t, batches, m + 1, number, env);
  }

  lemma GoesOn<D>(imp: Importer<D>, pace: Pace, db: Database, t: Totals, batches: seq<seq<Entry<D>>>, number: nat,
                  env: Env, end: End<Tally>)
    requires Sound(db) && batches != [] && end == ProcessBatch(imp, db, RawsOf(batches[0]), env.row, env.batch(number))
    requires end.outcome.Returned? && !ReportThrows(pace, number, env) && Sound(end.db)
    requires IsPlain(imp, pace, end.db, AddBatch(t, batches[0], end.outcome.value), batches[1..], number + 1, env)
    ensures IsPlain(imp, pace, db, t, batches, number, env)
  {
    var rest, next := batches[1..], AddBatch(t, batches[0], end.outcome.value);
    var m := Reported(pace, |rest|, number + 1, env);
    var run := RunBatches(imp, pace, end.db, next, rest, number + 1, env);
    var plain := PlainRun(imp, end.db, next, rest[..m], number + 1, env);
    EndsLater(pace, run, plain, m, number, env);
    RunsOn(imp, pace, db, t, batches, number, env, end);
    PlainRunsOn(imp, db, t, batches, m, number, env, end);
  }

  lemma {:induction false} RunIsPlain<D>(imp: Importer<D>, pace: Pace, db: Database, t: Totals,
                                         batches: seq<seq<Entry<D>>>, number: nat, env: Env)
    requires Sound(db)
    ensures IsPlain(imp, pace, db, t, batches, number, env)
    decreases |batches|
  {
    if batches == [] {
    } else {
      var end := ProcessBatch(imp, db, RawsOf(batches[0]), env.row, env.batch(number));
      if end.outcome.Thrown? || ReportThrows(pace, number, env) {
        StopsAtOnce(imp, pace, db, t, batches, number, env);
      } else {
        BatchKeepsKeys(imp, db, RawsOf(batches[0]), env.row, env.batch(number));
        RunIsPlain(imp, pace, end.db, AddBatch(t, batches[0], end.outcome.value), batches[1..], number + 1, env);
        GoesOn(imp, pace, db, t, batches, number, env, end);
      }
    }
  }

  /** Reporting after every batch meets a throwing report no later than reporting after some. */
  lemma {:induction false} ReportedOrder(pace: Pace, count: nat, number: nat, env: Env)
    ensures Reported(EveryBatch, count, number, env) <= Reported(pace, count, number, env)
    ensures (forall n :: number <= n < number + count ==> env.batch(n).progress.None?) ==>
              Reported(pace, count, number, env) == count
  {
    if count > 0 {
      ReportedOrder(pace, count - 1, number + 1, env);
    }
  }

  /** The same records from a CSV file and from a JSON file: both runs are plain runs of the same
      batches, the CSV run of at least as many as the JSON run, each up to the first of its reports that
      throws. Where none throws, counts, errors and tables are the same. */
  method CsvAndJsonAgree<D>(csv: ImportsService, json: ImportsService, imp: Importer<D>, rows: seq<D>, env: Env)
    returns (fromCsv: Result<Counts>, fromJson: Result<Counts>)
    requires csv != json && csv.Valid() && json.Valid()
    requires csv.db == json.db && csv.batchSize == json.batchSize
    modifies csv, json
    ensures var batches := Chunks(Items(rows, 1), csv.batchSize);
      var byTen, byOne := Reported(EveryTenth, |batches|, 1, env), Reported(EveryBatch, |batches|, 1, env);
      && byOne <= byTen
      && csv.db == PlainRun(imp, old(csv.db), NOTHING, batches[..byTen], 1, env).db
      && json.db == PlainRun(imp, old(csv.db), NOTHING, batches[..byOne], 1, env).db
      && ((forall n :: 1 <= n <= |batches| ==> env.batch(n).progress.None?) ==>
            fromCsv == fromJson && csv.db == json.db)
  {
    ghost var batches := Chunks(Items(rows, 1), csv.batchSize);
    RunIsPlain(imp, EveryTenth, csv.db, NOTHING, batches, 1, env);
    RunIsPlain(imp, EveryBatch, csv.db, NOTHING, batches, 1, env);
    ReportedOrder(EveryTenth, |batches|, 1, env);
    ReportedOrder(EveryBatch, |batches|, 1, env);
    fromCsv := csv.ProcessCsvStream(imp, rows, env);
    fromJson := json.ProcessJsonStream(imp, Returned(rows), env);
  }

  // ---------------------------------------------------------------------------------------
  // Conservation
  // ---------------------------------------------------------------------------------------

  /** Every entry of any file is processed, broken or ignored; the outcomes add up to the first two
      kinds and what throwing RELEASEs and COMMITs made count again, a processed entry at most three
      times. Without such throws they add up exactly. */
  lemma EntryFileCounts<D>(imp: Importer<D>, pace: Pace, db: Database, entries: seq<Entry<D>>, size: nat, env: Env,
                           r: Result<Counts>)
    requires Sound(db) && size >= 1
    requires Capped(r, RunBatches(imp, pace, db, NOTHING, Chunks(entries, size), 1, env).outcome)
    ensures r.Returned? ==>
      var sum := r.value.successful + r.value.failed + r.value.skipped;
      var broken := |BrokenErrors(entries)|;
      && r.value.total == |entries|
      && r.value.processed + broken + IgnoredCount(entries) == |entries|
      && sum == r.value.processed + broken + RunExtra(imp, db, Chunks(entries, size), 1, env)
             <= 3 * r.value.processed + broken
      && (NoReleaseOrCommitThrow(env) ==> sum == r.value.total - IgnoredCount(entries))
      && |r.value.errors| <= MAX_ERRORS
  {
    FileCounts(imp, pace, db, NOTHING, Chunks(entries, size), 1, env);
    ChunkSizes(entries, size);
  }

  /** CSV and JSON files: every record is processed, and without such throws
      successful + failed + skipped = processed = total = the number of records. */
  lemma RecordFileCounts<D>(imp: Importer<D>, pace: Pace, db: Database, rows: seq<D>, size: nat, env: Env,
                            r: Result<Counts>)
    requires Sound(db) && size >= 1
    requires Capped(r, RunBatches(imp, pace, db, NOTHING, Chunks(Items(rows, 1), size), 1, env).outcome)
    ensures r.Returned? ==>
      && r.value.total == r.value.processed == |rows|
      && (NoReleaseOrCommitThrow(env) ==> r.value.successful + r.value.failed + r.value.skipped == |rows|)
  {
    EntryFileCounts(imp, pace, db, Items(rows, 1), size, env, r);
    ItemsOnly(Items(rows, 1));
  }

  /** The lines of an NDJSON file whose value is falsy. */
  function FalsyCount<D>(truthy: D -> bool, items: seq<LineItem<D>>): (n: nat) {
    if items == [] then 0
    else (if items[0].Data? && !truthy(items[0].value) then 1 else 0) + FalsyCount(truthy, items[1..])
  }

  lemma {:induction false} FalsyIsIgnored<D>(truthy: D -> bool, items: seq<LineItem<D>>)
    ensures IgnoredCount(Classified(truthy, items)) == FalsyCount(truthy, items)
  {
    if items != [] {
      FalsyIsIgnored(truthy, items[1..]);
      assert Classified(truthy, items)[1..] == Classified(truthy, items[1..]);
    }
  }

  /** NDJSON files: all non-blank lines count in the total, and without such throws the outcomes add
      up to the total less the falsy values. */
  lemma NdjsonFileCounts<D>(imp: Importer<D>, db: Database, truthy: D -> bool, items: seq<LineItem<D>>, size: nat,
                            env: Env, r: Result<Counts>)
    requires Sound(db) && size >= 1
    requires Capped(r,
        RunBatches(imp, EveryTenth, db, NOTHING, Chunks(Classified(truthy, items), size), 1, env).outcome)
    ensures r.Returned? ==>
      && r.value.total == |items|
      && (NoReleaseOrCommitThrow(env) ==>
            r.value.successful + r.value.failed + r.value.skipped == r.value.total - FalsyCount(truthy, items))
  {
    EntryFileCounts(imp, EveryTenth, db, Classified(truthy, items), size, env, r);
    FalsyIsIgnored(truthy, items);
  }
}
