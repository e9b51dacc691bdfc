/** CSV output of `exports.service.ts` and a reader for the quoting and record
    rules of section 2 of RFC 4180, with records ending at LF or at LF and CRLF. */
module CsvExport {
  import opened Wrappers

  datatype ResourceType = Users | Articles | Comments

  /** A field value as `escapeCSV` sees it: null or undefined, or the string it renders to
      (`JSON.stringify` of an object, `String` of anything else). */
  datatype Value = Missing | Rendered(text: string)

  type Record = map<string, Value>

  function Headers(resource: ResourceType): (headers: seq<string>) {
    match resource
    case Users => ["id", "email", "name", "role", "active", "created_at", "updated_at"]
    case Articles =>
      ["id", "slug", "title", "body", "author_id", "tags", "status", "published_at", "created_at", "updated_at"]
    case Comments => ["id", "article_id", "user_id", "body", "created_at"]
  }

  /** `str.replace(/"/g, '""')`. */
  function DoubleQuotes(text: string): (r: string) {
    if text == "" then ""
    else (if text[0] == '"' then "\"\"" else [text[0]]) + DoubleQuotes(text[1..])
  }

  predicate NeedsQuotes(text: string) {
    ',' in text || '"' in text || '\n' in text
  }

  function EscapeText(text: string): (r: string) {
    if NeedsQuotes(text) then "\"" + DoubleQuotes(text) + "\"" else text
  }

  /** The string a cell stands for; null and the empty string are not told apart. */
  function Text(value: Value): (text: string) {
    match value
    case Missing => ""
    case Rendered(text) => text
  }

  function EscapeCsv(value: Value): (r: string) {
    match value
    case Missing => ""
    case Rendered(text) => EscapeText(text)
  }

  function Cell(chunk: Record, header: string): (value: Value) {
    if header in chunk then chunk[header] else Missing
  }

  /** `texts.join(',')`. */
  function JoinCommas(texts: seq<string>): (r: string) {
    if texts == [] then ""
    else if |texts| == 1 then texts[0]
    else texts[0] + "," + JoinCommas(texts[1..])
  }

  function Values(headers: seq<string>, chunk: Record): (values: seq<string>)
    ensures |values| == |headers|
    ensures forall h :: 0 <= h < |headers| ==> values[h] == EscapeCsv(Cell(chunk, headers[h]))
  {
    seq(|headers|, h requires 0 <= h < |headers| => EscapeCsv(Cell(chunk, headers[h])))
  }

  /** The cell strings of a record in header order. */
  function Texts(headers: seq<string>, chunk: Record): (texts: seq<string>)
    ensures |texts| == |headers|
    ensures forall h :: 0 <= h < |headers| ==> texts[h] == Text(Cell(chunk, headers[h]))
  {
    seq(|headers|, h requires 0 <= h < |headers| => Text(Cell(chunk, headers[h])))
  }

  function Rows(headers: seq<string>, chunks: seq<Record>): (rows: seq<seq<string>>)
    ensures |rows| == |chunks|
    ensures forall c :: 0 <= c < |chunks| ==> rows[c] == Texts(headers, chunks[c])
  {
    seq(|chunks|, c requires 0 <= c < |chunks| => Texts(headers, chunks[c]))
  }

  // ---------------------------------------------------------------------------------------
  // The reader
  // ---------------------------------------------------------------------------------------

  /** Where the reader stands: before a field, inside a plain or a quoted one, just after a quote
      inside a quoted field (the field's end, or the first half of a doubled quote), or after a quoted
      field and a carriage return. */
  datatype Mode = FieldStart | Plain | Quoted | QuoteSeen | QuoteCr | Malformed

  /** A field's text less a carriage return at its end. */
  function WithoutCr(text: string): (r: string) {
    if text != "" && text[|text| - 1] == '\r' then text[..|text| - 1] else text
  }

  /** With `crlf`, records end at CRLF as well as at LF. Any other carriage return is text, also in an
      unquoted field, where section 2 of RFC 4180 does not allow one. */
  datatype Reader = Reader(crlf: bool, mode: Mode, field: string, record: seq<string>, records: seq<seq<string>>) {
    function EndField(): Reader {
      Reader(crlf, FieldStart, "", record + [field], records)
    }

    function EndRecord(): Reader {
      Reader(crlf, FieldStart, "", [], records + [record + [field]])
    }

    /** The record ends in an unquoted field, at LF or at CRLF. */
    function EndPlain(): Reader {
      if crlf then this.(field := WithoutCr(field)).EndRecord() else EndRecord()
    }

    function Extend(c: char, mode: Mode): Reader {
      this.(mode := mode, field := field + [c])
    }

    function Reject(): Reader {
      this.(mode := Malformed)
    }

    /** One character. */
    function Read(c: char): Reader {
      match mode
      case FieldStart =>
        if c == '"' then this.(mode := Quoted)
        else if c == ',' then EndField()
        else if c == '\n' then EndRecord()
        else Extend(c, Plain)
      case Plain =>
        if c == '"' then Reject()
        else if c == ',' then EndField()
        else if c == '\n' then EndPlain()
        else Extend(c, Plain)
      case Quoted =>
        if c == '"' then this.(mode := QuoteSeen) else Extend(c, Quoted)
      case QuoteSeen =>
        if c == '"' then Extend(c, Quoted)
        else if c == ',' then EndField()
        else if c == '\n' then EndRecord()
        else if c == '\r' && crlf then this.(mode := QuoteCr)
        else Reject()
      case QuoteCr => if c == '\n' then EndRecord() else Reject()
      case Malformed => this
    }

    function ReadAll(text: string): Reader
      decreases |text|
    {
      if text == "" then this else Read(text[0]).ReadAll(text[1..])
    }

    /** The records at the end of the text; the last one may lack its line break. */
    function Finish(): (records: Option<seq<seq<string>>>) {
      if mode == Malformed || mode == Quoted || mode == QuoteCr then None
      else if mode == FieldStart && record == [] then Some(this.records)
      else Some(EndRecord().records)
    }
  }

  function Start(crlf: bool): (r: Reader) {
    Reader(crlf, FieldStart, "", [], [])
  }

  function ReadCsv(crlf: bool, text: string): (records: Option<seq<seq<string>>>) {
    Start(crlf).ReadAll(text).Finish()
  }

  /** What comes back of a cell that ends its record: a reader that knows CRLF takes an unquoted
      carriage return at its end for half of a line break. */
  function LastCell(crlf: bool, text: string): (r: string) {
    if crlf && !NeedsQuotes(text) then WithoutCr(text) else text
  }

  function AsRead(crlf: bool, row: seq<string>): (r: seq<string>)
    requires row != []
    ensures |r| == |row|
  {
    row[|row| - 1 := LastCell(crlf, row[|row| - 1])]
  }

  function AllAsRead(crlf: bool, rows: seq<seq<string>>): (r: seq<seq<string>>)
    requires forall i :: 0 <= i < |rows| ==> rows[i] != []
    ensures |r| == |rows|
    ensures forall i :: 0 <= i < |rows| ==> r[i] == AsRead(crlf, rows[i])
  {
    if rows == [] then [] else [AsRead(crlf, rows[0])] + AllAsRead(crlf, rows[1..])
  }

  /** The last cell goes out unquoted and ends in a carriage return. */
  predicate EndsInBareCr(row: seq<string>) {
    row != [] && var last := row[|row| - 1]; last != "" && last[|last| - 1] == '\r' && !NeedsQuotes(last)
  }

  lemma {:induction false} ReadAppend(r: Reader, a: string, b: string)
    ensures r.ReadAll(a + b) == r.ReadAll(a).ReadAll(b)
    decreases |a|
  {
    if a == "" {
      assert a + b == b;
    } else {
      ReadAppend(r.Read(a[0]), a[1..], b);
      assert (a + b)[1..] == a[1..] + b;
    }
  }

  /** Inside quotes, doubled quotes read back as single ones and everything else as itself. */
  lemma {:induction false} ReadQuoted(r: Reader, text: string)
    requires r.mode == Quoted
    ensures r.ReadAll(DoubleQuotes(text)) == r.(field := r.field + text)
    decreases |text|
  {
    if text != "" {
      var head := if text[0] == '"' then "\"\"" else [text[0]];
      var next := Reader(r.crlf, Quoted, r.field + [text[0]], r.record, r.records);
      ReadAppend(r, head, DoubleQuotes(text[1..]));
      assert r.ReadAll(head) == next by {
        if text[0] == '"' {
          assert head[1..] == ['"'] && head[1..][1..] == "";
          assert r.ReadAll(head) == r.Read('"').Read('"').ReadAll("");
        } else {
          assert head[1..] == "";
        }
      }
      ReadQuoted(next, text[1..]);
      assert r.field + [text[0]] + text[1..] == r.field + text;
    } else {
      assert r.field + text == r.field;
    }
  }

  lemma {:induction false} ReadPlain(r: Reader, text: string)
    requires r.mode == FieldStart || r.mode == Plain
    requires !NeedsQuotes(text)
    ensures r.ReadAll(text) == if text == "" then r else Reader(r.crlf, Plain, r.field + text, r.record, r.records)
    decreases |text|
  {
    if text != "" {
      var next := Reader(r.crlf, Plain, r.field + [text[0]], r.record, r.records);
      assert r.Read(text[0]) == next;
      ReadPlain(next, text[1..]);
      assert r.field + [text[0]] + text[1..] == r.field + text;
    }
  }

  /** An escaped cell, read from the start of a field up to its separator, is that cell. */
  lemma {:induction false} ReadCell(r: Reader, text: string, end: char)
    requires r.mode == FieldStart && r.field == ""
    requires end == ',' || end == '\n'
    ensures r.ReadAll(EscapeText(text) + [end])
         == if end == ',' then r.(field := text).EndField()
            else r.(field := LastCell(r.crlf, text)).EndRecord()
  {
    ReadAppend(r, EscapeText(text), [end]);
    var inside := r.ReadAll(EscapeText(text));
    assert inside.ReadAll([end]) == inside.Read(end).ReadAll([end][1..]);
    if NeedsQuotes(text) {
      var doubled := DoubleQuotes(text);
      var open := r.(mode := Quoted);
      var full := Reader(r.crlf, Quoted, text, r.record, r.records);
      ReadAppend(open, doubled, "\"");
      ReadQuoted(open, text);
      assert r.field + text == text;
      assert EscapeText(text)[1..] == doubled + "\"";
      assert full.ReadAll("\"") == full.Read('"').ReadAll("\""[1..]);
      assert inside == full.(mode := QuoteSeen);
    } else {
      ReadPlain(r, text);
      assert r.field + text == text;
    }
  }

  function Escaped(texts: seq<string>): (cells: seq<string>)
    ensures |cells| == |texts|
    ensures forall i :: 0 <= i < |texts| ==> cells[i] == EscapeText(texts[i])
  {
    seq(|texts|, i requires 0 <= i < |texts| => EscapeText(texts[i]))
  }

  /** All cells but the last read back as themselves. */
  lemma ReadFirst(r: Reader, texts: seq<string>)
    requires r.mode == FieldStart && r.field == "" && |texts| >= 2
    ensures r.ReadAll(JoinCommas(Escaped(texts)) + "\n")
         == Reader(r.crlf, FieldStart, "", r.record + [texts[0]], r.records)
            .ReadAll(JoinCommas(Escaped(texts[1..])) + "\n")
  {
    var cell, rest := EscapeText(texts[0]), JoinCommas(Escaped(texts[1..])) + "\n";
    assert Escaped(texts)[1..] == Escaped(texts[1..]);
    assert JoinCommas(Escaped(texts)) + "\n" == (cell + ",") + rest;
    ReadAppend(r, cell + ",", rest);
    ReadCell(r, texts[0], ',');
  }

  lemma AsReadCons(crlf: bool, record: seq<string>, texts: seq<string>)
    requires |texts| >= 2
    ensures record + [texts[0]] + AsRead(crlf, texts[1..]) == record + AsRead(crlf, texts)
  {
    assert [texts[0]] + AsRead(crlf, texts[1..]) == AsRead(crlf, texts);
  }

  /** One written line reads back as one record holding exactly its cells, but for a carriage return
      at its end. */
  lemma {:induction false} ReadLine(r: Reader, texts: seq<string>)
    requires r.mode == FieldStart && r.field == "" && |texts| >= 1
    ensures r.ReadAll(JoinCommas(Escaped(texts)) + "\n")
         == Reader(r.crlf, FieldStart, "", [], r.records + [r.record + AsRead(r.crlf, texts)])
    decreases |texts|
  {
    if |texts| == 1 {
      ReadCell(r, texts[0], '\n');
      assert [LastCell(r.crlf, texts[0])] == AsRead(r.crlf, texts);
    } else {
      ReadFirst(r, texts);
      ReadLine(Reader(r.crlf, FieldStart, "", r.record + [texts[0]], r.records), texts[1..]);
      AsReadCons(r.crlf, r.record, texts);
    }
  }

  function CsvText(rows: seq<seq<string>>): (text: string) {
    if rows == [] then "" else JoinCommas(Escaped(rows[0])) + "\n" + CsvText(rows[1..])
  }

  lemma CsvAppend(rows: seq<seq<string>>, row: seq<string>)
    ensures CsvText(rows + [row]) == CsvText(rows) + JoinCommas(Escaped(row)) + "\n"
  {
    if rows == [] {
      assert rows + [row] == [row] && CsvText([row][1..]) == "";
    } else {
      assert (rows + [row])[1..] == rows[1..] + [row];
      CsvAppend(rows[1..], row);
    }
  }

  lemma ReadRow(r: Reader, row: seq<string>, more: string)
    requires r.mode == FieldStart && r.field == "" && r.record == [] && row != []
    ensures r.ReadAll(JoinCommas(Escaped(row)) + "\n" + more)
         == Reader(r.crlf, FieldStart, "", [], r.records + [AsRead(r.crlf, row)]).ReadAll(more)
  {
    ReadAppend(r, JoinCommas(Escaped(row)) + "\n", more);
    ReadLine(r, row);
    assert [] + AsRead(r.crlf, row) == AsRead(r.crlf, row);
  }

  lemma {:induction false} ReadRows(r: Reader, rows: seq<seq<string>>)
    requires r.mode == FieldStart && r.field == "" && r.record == []
    requires forall i :: 0 <= i < |rows| ==> |rows[i]| >= 1
    ensures r.ReadAll(CsvText(rows)) == Reader(r.crlf, FieldStart, "", [], r.records + AllAsRead(r.crlf, rows))
    decreases |rows|
  {
    if rows == [] {
      assert r.records + [] == r.records;
    } else {
      var first, rest := AsRead(r.crlf, rows[0]), rows[1..];
      ReadRow(r, rows[0], CsvText(rest));
      ReadRows(Reader(r.crlf, FieldStart, "", [], r.records + [first]), rest);
      assert r.records + [first] + AllAsRead(r.crlf, rest) == r.records + ([first] + AllAsRead(r.crlf, rest));
    }
  }

  lemma LastCellKept(row: seq<string>)
    requires row != []
    ensures AsRead(true, row) == row <==> !EndsInBareCr(row)
  {
    var last := row[|row| - 1];
    assert AsRead(true, row)[|row| - 1] == LastCell(true, last);
    if EndsInBareCr(row) {
      assert |LastCell(true, last)| < |last|;
    }
  }

  lemma {:induction false} AllKept(rows: seq<seq<string>>)
    requires forall i :: 0 <= i < |rows| ==> rows[i] != []
    ensures AllAsRead(false, rows) == rows
    ensures AllAsRead(true, rows) == rows <==> forall i :: 0 <= i < |rows| ==> !EndsInBareCr(rows[i])
  {
    if rows != [] {
      var first, rest := rows[0], rows[1..];
      LastCellKept(first);
      AllKept(rest);
      assert rows == [first] + rest;
      assert AsRead(false, first) == first;
      assert forall i :: 1 <= i < |rows| ==> rows[i] == rest[i - 1];
      assert AllAsRead(true, rows) == rows <==> AsRead(true, first) == first && AllAsRead(true, rest) == rest by {
        assert ([AsRead(true, first)] + AllAsRead(true, rest))[1..] == AllAsRead(true, rest);
      }
    }
  }

  lemma ReadTable(crlf: bool, rows: seq<seq<string>>)
    requires forall i :: 0 <= i < |rows| ==> |rows[i]| >= 1
    ensures ReadCsv(crlf, CsvText(rows)) == Some(AllAsRead(crlf, rows))
  {
    ReadRows(Start(crlf), rows);
    assert [] + AllAsRead(crlf, rows) == AllAsRead(crlf, rows);
  }

  /** What comes back of a table of non-empty rows: where records end at LF only, the table; where they
      end at LF or CRLF, the table if and only if no row ends in an unquoted cell ending in a carriage
      return, and otherwise the table less those carriage returns. */
  lemma ReadCsvText(rows: seq<seq<string>>)
    requires forall i :: 0 <= i < |rows| ==> |rows[i]| >= 1
    ensures ReadCsv(false, CsvText(rows)) == Some(rows)
    ensures ReadCsv(true, CsvText(rows)) == Some(AllAsRead(true, rows))
    ensures ReadCsv(true, CsvText(rows)) == Some(rows) <==> forall i :: 0 <= i < |rows| ==> !EndsInBareCr(rows[i])
  {
    ReadTable(false, rows);
    ReadTable(true, rows);
    AllKept(rows);
  }

  // ---------------------------------------------------------------------------------------
  // The writer
  // ---------------------------------------------------------------------------------------

  lemma UserHeadersArePlain()
    ensures forall h :: h in Headers(Users) ==> !NeedsQuotes(h)
  {
  }

  lemma ArticleHeadersArePlain()
    ensures forall h :: h in Headers(Articles) ==> !NeedsQuotes(h)
  {
  }

  lemma CommentHeadersArePlain()
    ensures forall h :: h in Headers(Comments) ==> !NeedsQuotes(h)
  {
  }

  /** No built-in header needs quoting. */
  lemma HeadersArePlain(resource: ResourceType)
    ensures |Headers(resource)| >= 1
    ensures forall h :: h in Headers(resource) ==> !NeedsQuotes(h)
  {
    match resource
    case Users => UserHeadersArePlain();
    case Articles => ArticleHeadersArePlain();
    case Comments => CommentHeadersArePlain();
  }

  /** `transformToCsv`: headers go out unescaped before the first record. */
  class CsvTransform {
    const headers: seq<string>
    var headerWritten: bool
    var output: string
    ghost var received: seq<Record>

    ghost predicate Valid()
      reads this
    {
      && |headers| >= 1
      && (forall h :: h in headers ==> !NeedsQuotes(h))
      && headerWritten == (received != [])
      && output == if received == [] then "" else CsvText([headers] + Rows(headers, received))
    }

    constructor (resource: ResourceType)
      ensures Valid() && received == [] && headers == Headers(resource)
    {
      HeadersArePlain(resource);
      headers := Headers(resource);
      headerWritten, output, received := false, "", [];
    }

    method OnData(chunk: Record)
      requires Valid()
      modifies this
      ensures Valid() && received == old(received) + [chunk]
    {
      if !headerWritten {
        output := output + JoinCommas(headers) + "\n";
        headerWritten := true;
        assert Escaped(headers) == headers;
        CsvAppend([], headers);
        assert [] + [headers] == [headers] + Rows(headers, received);
      }
      var values := Values(headers, chunk);
      output := output + JoinCommas(values) + "\n";
      assert values == Escaped(Texts(headers, chunk));
      CsvAppend([headers] + Rows(headers, received), Texts(headers, chunk));
      assert [headers] + Rows(headers, received + [chunk])
          == [headers] + Rows(headers, received) + [Texts(headers, chunk)];
      received := received + [chunk];
    }
  }

  /** The rows a CSV file stands for: the header and the cells of every record, or nothing. */
  function FileRows(resource: ResourceType, chunks: seq<Record>): (rows: seq<seq<string>>)
    ensures forall i :: 0 <= i < |rows| ==> |rows[i]| >= 1
  {
    HeadersArePlain(resource);
    if chunks == [] then [] else [Headers(resource)] + Rows(Headers(resource), chunks)
  }

  /** The whole transform: for every list of records, a reader whose records end at LF gets back the
      header and every cell string, and one whose records end at LF or CRLF does so exactly when no
      row ends in a bare carriage return; without records nothing is written, not even the header. */
  method TransformToCsv(resource: ResourceType, chunks: seq<Record>) returns (output: string)
    ensures ReadCsv(false, output) == Some(FileRows(resource, chunks))
    ensures ReadCsv(true, output) == Some(FileRows(resource, chunks))
       <==> forall i :: 0 <= i < |FileRows(resource, chunks)| ==> !EndsInBareCr(FileRows(resource, chunks)[i])
    ensures output == "" <==> chunks == []
  {
    var transform := new CsvTransform(resource);
    for i := 0 to |chunks|
      invariant fresh(transform) && transform.Valid()
      invariant transform.received == chunks[..i] && transform.headers == Headers(resource)
    {
      transform.OnData(chunks[i]);
      assert chunks[..i + 1] == chunks[..i] + [chunks[i]];
    }
    assert chunks[..|chunks|] == chunks;
    output := transform.output;
    ReadCsvText(FileRows(resource, chunks));
  }

  /** Two exports of one resource are the same text only when every cell string agrees. */
  lemma CsvTextInjective(rows: seq<seq<string>>, others: seq<seq<string>>)
    requires forall i :: 0 <= i < |rows| ==> |rows[i]| >= 1
    requires forall i :: 0 <= i < |others| ==> |others[i]| >= 1
    requires CsvText(rows) == CsvText(others)
    ensures rows == others
  {
    ReadCsvText(rows);
    ReadCsvText(others);
  }
}
