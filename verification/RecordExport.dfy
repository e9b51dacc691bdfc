/** Paged record export of `exports.service.ts`: filters, the offset loop, formatting, and the
    CSV export as a whole. */
module RecordExport {
  import opened Wrappers
  import opened CsvExport
  import opened StreamUtils

  datatype Entity =
    | User(id: string, email: string, name: string, role: string, active: bool, createdAt: int, updatedAt: int)
    | Article(id: string, slug: string, title: string, body: string, authorId: string, tags: seq<string>,
              status: string, publishedAt: Option<int>, createdAt: int, updatedAt: int)
    | Comment(id: string, articleId: string, userId: string, body: string, createdAt: int)

  /** The filters of a request; `createdAfter` is not modelled. */
  datatype Filters = Filters(
    ids: Option<seq<string>>, createdBefore: Option<int>, updatedAfter: Option<int>, updatedBefore: Option<int>,
    active: Option<bool>, status: Option<string>, authorId: Option<string>,
    articleId: Option<string>, userId: Option<string>)

  /** One `andWhere` of a query. */
  datatype Condition =
    | IdIn(ids: seq<string>)
    | CreatedBefore(time: int)
    | UpdatedAfter(time: int)
    | UpdatedBefore(time: int)
    | ActiveIs(active: bool)
    | StatusIs(status: string)
    | AuthorIs(id: string)
    | ArticleIs(id: string)
    | UserIs(id: string)

  predicate IsOf(e: Entity, resource: ResourceType) {
    match resource
    case Users => e.User?
    case Articles => e.Article?
    case Comments => e.Comment?
  }

  /** Whether the table of a resource has the column the condition names; the database rejects a
      query on a column that is not there, such as the update time of a comment. */
  predicate HasColumn(resource: ResourceType, c: Condition) {
    match c
    case IdIn(_) => true
    case CreatedBefore(_) => true
    case UpdatedAfter(_) => resource != Comments
    case UpdatedBefore(_) => resource != Comments
    case ActiveIs(_) => resource == Users
    case StatusIs(_) => resource == Articles
    case AuthorIs(_) => resource == Articles
    case ArticleIs(_) => resource == Comments
    case UserIs(_) => resource == Comments
  }

  predicate Holds(e: Entity, c: Condition) {
    match c
    case IdIn(ids) => e.id in ids
    case CreatedBefore(t) => e.createdAt <= t
    case UpdatedAfter(t) => !e.Comment? && e.updatedAt >= t
    case UpdatedBefore(t) => !e.Comment? && e.updatedAt <= t
    case ActiveIs(active) => e.User? && e.active == active
    case StatusIs(status) => e.Article? && e.status == status
    case AuthorIs(id) => e.Article? && e.authorId == id
    case ArticleIs(id) => e.Comment? && e.articleId == id
    case UserIs(id) => e.Comment? && e.userId == id
  }

  predicate Passes(e: Entity, conditions: seq<Condition>) {
    forall i :: 0 <= i < |conditions| ==> Holds(e, conditions[i])
  }

  /** The rows of a table passing every condition, in table order. */
  function Select(table: seq<Entity>, conditions: seq<Condition>): (rows: seq<Entity>) {
    if table == [] then []
    else (if Passes(table[0], conditions) then [table[0]] else []) + Select(table[1..], conditions)
  }

  /** `skip(offset).take(limit)`. */
  function Page(rows: seq<Entity>, offset: nat, limit: nat): (page: seq<Entity>) {
    Take(if offset <= |rows| then rows[offset..] else [], limit)
  }

  /** Pages follow on: a page starts where it should, and only the last one can be short or empty. */
  lemma PageFollows(rows: seq<Entity>, offset: nat, limit: nat)
    requires offset <= |rows| && limit >= 1
    ensures var page := Page(rows, offset, limit);
      && offset + |page| <= |rows|
      && rows[..offset] + page == rows[..offset + |page|]
      && (|page| == 0 || |page| < limit ==> offset + |page| == |rows|)
  {
    var page := Page(rows, offset, limit);
    assert page == rows[offset..offset + |page|];
  }

  /** A query builder: conditions are added, then it is run over the ordered table. */
  class SelectQuery {
    const resource: ResourceType
    var conditions: seq<Condition>

    constructor (resource: ResourceType)
      ensures this.resource == resource && conditions == []
    {
      this.resource := resource;
      conditions := [];
    }

    method AndWhere(c: Condition)
      modifies this
      ensures conditions == old(conditions) + [c]
      ensures Accepted() <==> old(Accepted()) && HasColumn(resource, c)
      ensures forall e :: Passes(e, conditions) <==> Passes(e, old(conditions)) && Holds(e, c)
    {
      conditions := conditions + [c];
      assert conditions[|conditions| - 1] == c;
      assert old(conditions) == conditions[..|conditions| - 1];
    }

    predicate Accepted()
      reads this
    {
      forall i :: 0 <= i < |conditions| ==> HasColumn(resource, conditions[i])
    }

    method GetMany(table: seq<Entity>, offset: nat, limit: nat) returns (rows: Result<seq<Entity>>)
      ensures rows == if !Accepted() then Thrown("no such column") else
                      Returned(Page(Select(table, conditions), offset, limit))
    {
      if !Accepted() {
        return Thrown("no such column");
      }
      return Returned(Page(Select(table, conditions), offset, limit));
    }

    method GetCount(table: seq<Entity>) returns (count: Result<nat>)
      ensures count == if !Accepted() then Thrown("no such column") else Returned(|Select(table, conditions)|)
    {
      if !Accepted() {
        return Thrown("no such column");
      }
      return Returned(|Select(table, conditions)|);
    }
  }

  /** What a request means: an entity of the resource that meets each filter given and relevant.
      An empty id list filters nothing, nor does an empty status or reference id. */
  predicate Matches(resource: ResourceType, f: Filters, e: Entity) {
    && (f.ids.Some? && |f.ids.value| > 0 ==> e.id in f.ids.value)
    && (f.createdBefore.Some? ==> e.createdAt <= f.createdBefore.value)
    && (f.updatedAfter.Some? ==> !e.Comment? && e.updatedAt >= f.updatedAfter.value)
    && (f.updatedBefore.Some? ==> !e.Comment? && e.updatedAt <= f.updatedBefore.value)
    && match resource
       case Users => f.active.Some? ==> e.User? && e.active == f.active.value
       case Articles =>
         && (Given(f.status) ==> e.Article? && e.status == f.status.value)
         && (Given(f.authorId) ==> e.Article? && e.authorId == f.authorId.value)
       case Comments =>
         && (Given(f.articleId) ==> e.Comment? && e.articleId == f.articleId.value)
         && (Given(f.userId) ==> e.Comment? && e.userId == f.userId.value)
  }

  predicate Given(text: Option<string>) {
    text.Some? && text.value != ""
  }

  /** Requests the database answers: comments have no update time to filter on. */
  predicate Answerable(resource: ResourceType, f: Filters) {
    resource == Comments ==> f.updatedAfter.None? && f.updatedBefore.None?
  }

  /** The matching rows of a table, in table order. */
  function Matching(resource: ResourceType, f: Filters, table: seq<Entity>): (rows: seq<Entity>) {
    if table == [] then []
    else (if Matches(resource, f, table[0]) then [table[0]] else []) + Matching(resource, f, table[1..])
  }

  /** Filter by filter, for an entity of the resource: those common to all, then its own. */
  lemma MatchesMeans(resource: ResourceType, f: Filters, e: Entity)
    requires IsOf(e, resource)
    ensures Matches(resource, f, e) <==>
      && (f.ids.None? || f.ids == Some([]) || e.id in f.ids.value)
      && (f.createdBefore.None? || e.createdAt <= f.createdBefore.value)
      && (f.updatedAfter.None? || ((e.User? || e.Article?) && f.updatedAfter.value <= e.updatedAt))
      && (f.updatedBefore.None? || ((e.User? || e.Article?) && e.updatedAt <= f.updatedBefore.value))
      && (e.User? ==> f.active.None? || f.active == Some(e.active))
      && (e.Article? ==> f.status.None? || f.status == Some("") || f.status == Some(e.status))
      && (e.Article? ==> f.authorId.None? || f.authorId == Some("") || f.authorId == Some(e.authorId))
      && (e.Comment? ==> f.articleId.None? || f.articleId == Some("") || f.articleId == Some(e.articleId))
      && (e.Comment? ==> f.userId.None? || f.userId == Some("") || f.userId == Some(e.userId))
  {
  }

  lemma {:induction false} SelectIsMatching(resource: ResourceType, f: Filters, table: seq<Entity>, cs: seq<Condition>)
    requires forall e :: e in table ==> (Passes(e, cs) <==> Matches(resource, f, e))
    ensures Select(table, cs) == Matching(resource, f, table)
  {
    if table != [] {
      SelectIsMatching(resource, f, table[1..], cs);
    }
  }

  /** The query every fetch and every count of one request builds. */
  method BuildQuery(resource: ResourceType, f: Filters) returns (q: SelectQuery)
    ensures fresh(q) && q.resource == resource
    ensures q.Accepted() <==> Answerable(resource, f)
    ensures forall e :: Passes(e, q.conditions) <==> Matches(resource, f, e)
  {
    q := new SelectQuery(resource);
    ApplyCommonFilters(q, f);
    ghost var common := q.conditions;
    match resource
    case Users =>
      if f.active.Some? {
        q.AndWhere(ActiveIs(f.active.value));
      }
    case Articles =>
      if Given(f.status) {
        q.AndWhere(StatusIs(f.status.value));
      }
      if Given(f.authorId) {
        q.AndWhere(AuthorIs(f.authorId.value));
      }
    case Comments =>
      if Given(f.articleId) {
        q.AndWhere(ArticleIs(f.articleId.value));
      }
      if Given(f.userId) {
        q.AndWhere(UserIs(f.userId.value));
      }
  }

  method ApplyCommonFilters(q: SelectQuery, f: Filters)
    requires q.conditions == []
    modifies q
    ensures q.Accepted() <==> Answerable(q.resource, f)
    ensures forall e :: Passes(e, q.conditions) <==>
              && (f.ids.Some? && |f.ids.value| > 0 ==> e.id in f.ids.value)
              && (f.createdBefore.Some? ==> e.createdAt <= f.createdBefore.value)
              && (f.updatedAfter.Some? ==> !e.Comment? && e.updatedAt >= f.updatedAfter.value)
              && (f.updatedBefore.Some? ==> !e.Comment? && e.updatedAt <= f.updatedBefore.value)
  {
    if f.ids.Some? && |f.ids.value| > 0 {
      q.AndWhere(IdIn(f.ids.value));
    }
    if f.createdBefore.Some? {
      q.AndWhere(CreatedBefore(f.createdBefore.value));
    }
    if f.updatedAfter.Some? {
      q.AndWhere(UpdatedAfter(f.updatedAfter.value));
    }
    if f.updatedBefore.Some? {
      q.AndWhere(UpdatedBefore(f.updatedBefore.value));
    }
  }

  method FetchRecordsBatch(resource: ResourceType, f: Filters, table: seq<Entity>, offset: nat, limit: nat)
    returns (rows: Result<seq<Entity>>)
    ensures rows == if !Answerable(resource, f) then Thrown("no such column") else
                    Returned(Page(Matching(resource, f, table), offset, limit))
  {
    var q := BuildQuery(resource, f);
    SelectIsMatching(resource, f, table, q.conditions);
    rows := q.GetMany(table, offset, limit);
  }

  method CountRecords(resource: ResourceType, f: Filters, table: seq<Entity>) returns (count: Result<nat>)
    ensures count
        == if Answerable(resource, f) then Returned(|Matching(resource, f, table)|) else Thrown("no such column")
  {
    var q := BuildQuery(resource, f);
    SelectIsMatching(resource, f, table, q.conditions);
    count := q.GetCount(table);
  }

  // ---------------------------------------------------------------------------------------
  // Formatting
  // ---------------------------------------------------------------------------------------

  /** How times and tag lists turn into text: both are objects, so `JSON.stringify`. */
  datatype Printer = Printer(time: int -> string, tags: seq<string> -> string)

  function OptionalTime(p: Printer, t: Option<int>): (v: Value) {
    if t.Some? then Rendered(p.time(t.value)) else Missing
  }

  /** The export fields of an entity. */
  function Formatted(p: Printer, e: Entity): (record: Record) {
    match e
    case User(id, email, name, role, active, createdAt, updatedAt) =>
      map["id" := Rendered(id), "email" := Rendered(email), "name" := Rendered(name), "role" := Rendered(role),
          "active" := Rendered(if active then "true" else "false"),
          "created_at" := Rendered(p.time(createdAt)), "updated_at" := Rendered(p.time(updatedAt))]
    case Article(id, slug, title, body, authorId, tags, status, publishedAt, createdAt, updatedAt) =>
      map["id" := Rendered(id), "slug" := Rendered(slug), "title" := Rendered(title), "body" := Rendered(body),
          "author_id" := Rendered(authorId), "tags" := Rendered(p.tags(tags)), "status" := Rendered(status),
          "published_at" := OptionalTime(p, publishedAt),
          "created_at" := Rendered(p.time(createdAt)), "updated_at" := Rendered(p.time(updatedAt))]
    case Comment(id, articleId, userId, body, createdAt) =>
      map["id" := Rendered(id), "article_id" := Rendered(articleId), "user_id" := Rendered(userId),
          "body" := Rendered(body), "created_at" := Rendered(p.time(createdAt))]
  }

  /** The formatter and the CSV header row, written apart, name the same columns. */
  lemma FormattedHasHeaders(p: Printer, e: Entity, resource: ResourceType)
    requires IsOf(e, resource)
    ensures Formatted(p, e).Keys == set h | h in Headers(resource)
  {
    var headers := Headers(resource);
    assert forall h :: h in headers <==> h in Formatted(p, e).Keys by {
      match resource
      case Users =>
        assert headers == [headers[0], headers[1], headers[2], headers[3], headers[4], headers[5], headers[6]];
      case Articles =>
        assert headers == [headers[0], headers[1], headers[2], headers[3], headers[4], headers[5], headers[6],
                           headers[7], headers[8], headers[9]];
      case Comments => assert headers == [headers[0], headers[1], headers[2], headers[3], headers[4]];
    }
  }

  /** An article that is not published has no date, which is not the empty date. */
  lemma UnpublishedIsMissing(p: Printer, e: Entity)
    requires e.Article?
    ensures "published_at" in Formatted(p, e)
    ensures Formatted(p, e)["published_at"]
         == if e.publishedAt.None? then Missing else Rendered(p.time(e.publishedAt.value))
  {
  }

  /** The cells of a user's line, column by column. */
  lemma UserCells(p: Printer, e: Entity)
    requires e.User?
    ensures Texts(Headers(Users), Formatted(p, e))
         == [e.id, e.email, e.name, e.role, if e.active then "true" else "false", p.time(e.createdAt),
             p.time(e.updatedAt)]
  {
    assert |Headers(Users)| == 7;
  }

  /** The cells of an article's line: an unpublished article's date is empty. */
  lemma ArticleCells(p: Printer, e: Entity)
    requires e.Article?
    ensures Texts(Headers(Articles), Formatted(p, e))
         == [e.id, e.slug, e.title, e.body, e.authorId, p.tags(e.tags), e.status,
             if e.publishedAt.Some? then p.time(e.publishedAt.value) else "", p.time(e.createdAt), p.time(e.updatedAt)]
  {
    assert |Headers(Articles)| == 10;
  }

  lemma CommentCells(p: Printer, e: Entity)
    requires e.Comment?
    ensures Texts(Headers(Comments), Formatted(p, e)) == [e.id, e.articleId, e.userId, e.body, p.time(e.createdAt)]
  {
    assert |Headers(Comments)| == 5;
  }

  /** The export record of an entity: the requested fields that exist, or all of them when none is
      requested. */
  function Selected(p: Printer, fields: seq<string>, e: Entity): (record: Record)
    ensures record.Keys <= Formatted(p, e).Keys
    ensures forall h :: h in record ==> record[h] == Formatted(p, e)[h]
  {
    if fields == [] then Formatted(p, e)
    else map h | h in Formatted(p, e) && h in fields :: Formatted(p, e)[h]
  }

  /** What a record of an entity is to hold: all the resource's columns when no fields are requested, and
      the requested ones among them otherwise, each with its formatted value. */
  ghost predicate Holding(p: Printer, fields: seq<string>, e: Entity, record: Record) {
    && (forall resource, h :: IsOf(e, resource) ==>
          (h in record <==> h in Headers(resource) && (fields == [] || h in fields)))
    && (forall h :: h in record && h in Formatted(p, e) ==> record[h] == Formatted(p, e)[h])
  }

  lemma SelectedHolds(p: Printer, fields: seq<string>, e: Entity)
    ensures Holding(p, fields, e, Selected(p, fields, e))
  {
    forall resource, h | IsOf(e, resource)
      ensures h in Selected(p, fields, e) <==> h in Headers(resource) && (fields == [] || h in fields)
    {
      FormattedHasHeaders(p, e, resource);
      assert h in Formatted(p, e) <==> h in Headers(resource);
    }
  }

  /** `formatRecord`, with its loop over the requested fields. */
  method FormatRecord(p: Printer, e: Entity, fields: seq<string>) returns (record: Record)
    ensures record == Selected(p, fields, e)
    ensures Holding(p, fields, e, record)
  {
    SelectedHolds(p, fields, e);
    var formatted := Formatted(p, e);
    if |fields| == 0 {
      return formatted;
    }
    record := map[];
    for i := 0 to |fields|
      invariant record == map h | h in formatted && h in fields[..i] :: formatted[h]
    {
      assert forall h :: h in fields[..i + 1] <==> h in fields[..i] || h == fields[i];
      if fields[i] in formatted {
        record := record[fields[i] := formatted[fields[i]]];
      }
    }
    assert fields[..|fields|] == fields;
  }

  function SelectedAll(p: Printer, fields: seq<string>, rows: seq<Entity>): (records: seq<Record>)
    ensures |records| == |rows|
    ensures forall i :: 0 <= i < |rows| ==> records[i] == Selected(p, fields, rows[i])
  {
    seq(|rows|, i requires 0 <= i < |rows| => Selected(p, fields, rows[i]))
  }

  // ---------------------------------------------------------------------------------------
  // The paged loop
  // ---------------------------------------------------------------------------------------

  lemma SelectedAppend(p: Printer, fields: seq<string>, a: seq<Entity>, b: seq<Entity>)
    ensures SelectedAll(p, fields, a + b) == SelectedAll(p, fields, a) + SelectedAll(p, fields, b)
  {
  }

  /** The inner loop of `streamRecords`. */
  method WritePage(p: Printer, fields: seq<string>, records: seq<Entity>, written: seq<Record>)
    returns (output: seq<Record>)
    ensures output == written + SelectedAll(p, fields, records)
  {
    output := written;
    for i := 0 to |records|
      invariant output == written + SelectedAll(p, fields, records[..i])
    {
      var record := FormatRecord(p, records[i], fields);
      SelectedAppend(p, fields, records[..i], [records[i]]);
      assert records[..i + 1] == records[..i] + [records[i]];
      output := output + [record];
    }
    assert records[..|records|] == records;
  }

  /** `streamRecords` over the table of a resource: page after page until a short or empty one. While
      the table stays as it is, every matching row is written once and in order, for every page size. */
  method StreamRecords(p: Printer, resource: ResourceType, f: Filters, fields: seq<string>, table: seq<Entity>,
                       batchSize: nat) returns (written: Result<seq<Record>>)
    requires batchSize >= 1
    ensures written == if Answerable(resource, f) then Returned(SelectedAll(p, fields, Matching(resource, f, table)))
                       else Thrown("no such column")
    ensures written.Returned? ==>
      var rows := Matching(resource, f, table);
      |written.value| == |rows| && forall i :: 0 <= i < |rows| ==> Holding(p, fields, rows[i], written.value[i])
  {
    ghost var all := Matching(resource, f, table);
    var output: seq<Record> := [];
    var offset: nat := 0;
    var hasMore := true;
    while hasMore
      invariant offset <= |all| && output == SelectedAll(p, fields, all[..offset])
      invariant hasMore || (offset == |all| && Answerable(resource, f))
      decreases |all| - offset + if hasMore then 1 else 0
    {
      var records :- FetchRecordsBatch(resource, f, table, offset, batchSize);
      PageFollows(all, offset, batchSize);
      if |records| == 0 {
        hasMore := false;
      } else {
        output := WritePage(p, fields, records, output);
        SelectedAppend(p, fields, all[..offset], records);
        offset := offset + |records|;
        hasMore := |records| == batchSize;
      }
    }
    assert all[..offset] == all;
    forall i | 0 <= i < |all|
      ensures Holding(p, fields, all[i], output[i])
    {
      SelectedHolds(p, fields, all[i]);
    }
    return Returned(output);
  }

  /** The count made before an export is the number of records it writes. */
  method CountThenStream(p: Printer, resource: ResourceType, f: Filters, fields: seq<string>, table: seq<Entity>,
                         batchSize: nat) returns (count: Result<nat>, written: Result<seq<Record>>)
    requires batchSize >= 1
    ensures count.Returned? <==> written.Returned?
    ensures count.Returned? ==> count.value == |written.value|
  {
    count := CountRecords(resource, f, table);
    written := StreamRecords(p, resource, f, fields, table, batchSize);
  }

  /** The columns of an entity, written out. */
  function Columns(p: Printer, e: Entity): (cells: seq<string>) {
    match e
    case User(id, email, name, role, active, createdAt, updatedAt) =>
      [id, email, name, role, if active then "true" else "false", p.time(createdAt), p.time(updatedAt)]
    case Article(id, slug, title, body, authorId, tags, status, publishedAt, createdAt, updatedAt) =>
      [id, slug, title, body, authorId, p.tags(tags), status,
       if publishedAt.Some? then p.time(publishedAt.value) else "", p.time(createdAt), p.time(updatedAt)]
    case Comment(id, articleId, userId, body, createdAt) => [id, articleId, userId, body, p.time(createdAt)]
  }

  lemma ColumnsAreCells(p: Printer, e: Entity, resource: ResourceType)
    requires IsOf(e, resource)
    ensures Texts(Headers(resource), Selected(p, [], e)) == Columns(p, e)
  {
    SelectedHolds(p, [], e);
    FormattedHasHeaders(p, e, resource);
    assert Selected(p, [], e) == Formatted(p, e);
    match resource
    case Users => UserCells(p, e);
    case Articles => ArticleCells(p, e);
    case Comments => CommentCells(p, e);
  }

  /** What a reader is to get from a CSV export: the column names, then the columns of each row; nothing
      at all without rows. */
  function ExportedRows(p: Printer, resource: ResourceType, rows: seq<Entity>): (lines: seq<seq<string>>)
    ensures |lines| == if rows == [] then 0 else |rows| + 1
    ensures rows != [] && resource == Users ==>
      lines[0] == ["id", "email", "name", "role", "active", "created_at", "updated_at"]
    ensures rows != [] && resource == Articles ==>
      lines[0] == ["id", "slug", "title", "body", "author_id", "tags", "status", "published_at", "created_at",
                   "updated_at"]
    ensures rows != [] && resource == Comments ==> lines[0] == ["id", "article_id", "user_id", "body", "created_at"]
    ensures forall i :: 0 <= i < |rows| ==> lines[i + 1] == Columns(p, rows[i])
  {
    if rows == [] then []
    else [Headers(resource)] + seq(|rows|, i requires 0 <= i < |rows| => Columns(p, rows[i]))
  }

  lemma ExportedRowsAre(p: Printer, resource: ResourceType, rows: seq<Entity>)
    requires forall e :: e in rows ==> IsOf(e, resource)
    ensures FileRows(resource, SelectedAll(p, [], rows)) == ExportedRows(p, resource, rows)
  {
    forall i | 0 <= i < |rows|
      ensures Texts(Headers(resource), Selected(p, [], rows[i])) == Columns(p, rows[i])
    {
      assert rows[i] in rows;
      ColumnsAreCells(p, rows[i], resource);
    }
  }

  /** A whole CSV export: what an RFC 4180 reader gets from the file is the header row followed by
      the cells of every matching row of the table, in order. From a table of the resource these are
      its columns, written out. */
  method ExportCsv(p: Printer, resource: ResourceType, f: Filters, table: seq<Entity>, batchSize: nat)
    returns (file: Result<string>)
    requires batchSize >= 1
    ensures file.Returned? <==> Answerable(resource, f)
    ensures file.Returned? ==>
      var records := SelectedAll(p, [], Matching(resource, f, table));
      && ReadCsv(false, file.value) == Some(FileRows(resource, records))
      && (ReadCsv(true, file.value) == Some(FileRows(resource, records))
          <==> forall i :: 0 <= i < |FileRows(resource, records)| ==> !EndsInBareCr(FileRows(resource, records)[i]))
    ensures file.Returned? && (forall e :: e in table ==> IsOf(e, resource)) ==>
      ReadCsv(false, file.value) == Some(ExportedRows(p, resource, Matching(resource, f, table)))
  {
    var written :- StreamRecords(p, resource, f, [], table, batchSize);
    var text := TransformToCsv(resource, written);
    if forall e :: e in table ==> IsOf(e, resource) {
      MatchingInTable(resource, f, table);
      ExportedRowsAre(p, resource, Matching(resource, f, table));
    }
    return Returned(text);
  }

  /** A whole NDJSON export, with any fields: the NDJSON parser gets back the record of every matching
      row, in order and on its own line, given what is assumed of JSON for these records. */
  method ExportNdjson(p: Printer, resource: ResourceType, f: Filters, fields: seq<string>, table: seq<Entity>,
                      batchSize: nat, stringify: Record -> string, parse: string -> Parsed<Record>)
    returns (file: Result<string>)
    requires batchSize >= 1
    requires forall e :: e in table ==> Faithful(stringify, parse, Selected(p, fields, e))
    ensures file.Returned? <==> Answerable(resource, f)
    ensures file.Returned? ==>
      NdjsonItems(parse, file.value) == Numbered(SelectedAll(p, fields, Matching(resource, f, table)), 1)
    ensures file.Returned? ==>
      var rows, items := Matching(resource, f, table), NdjsonItems(parse, file.value);
      && |items| == |rows|
      && forall i :: 0 <= i < |rows| ==>
           items[i].Data? && items[i].line == i + 1 && Holding(p, fields, rows[i], items[i].value)
  {
    var written :- StreamRecords(p, resource, f, fields, table, batchSize);
    MatchingInTable(resource, f, table);
    NdjsonTextLines(stringify, parse, written, 1);
    return Returned(NdjsonText(stringify, written));
  }

  lemma {:induction false} MatchingInTable(resource: ResourceType, f: Filters, table: seq<Entity>)
    ensures forall e :: e in Matching(resource, f, table) ==> e in table
  {
    if table != [] {
      MatchingInTable(resource, f, table[1..]);
    }
  }

  /** `Matching` keeps every matching row as often as the table holds it, and nothing else. */
  lemma {:induction false} MatchingExact(resource: ResourceType, f: Filters, table: seq<Entity>, e: Entity)
    ensures multiset(Matching(resource, f, table))[e]
         == if Matches(resource, f, e) then multiset(table)[e] else 0
  {
    if table != [] {
      MatchingExact(resource, f, table[1..], e);
      assert table == [table[0]] + table[1..];
    }
  }
}
