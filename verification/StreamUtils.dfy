/** The transform streams of `stream.utils.ts`: classes whose fields change chunk by chunk. */
module StreamUtils {
  import opened Wrappers
  import opened TextLines

  // ---------------------------------------------------------------------------------------
  // Batches
  // ---------------------------------------------------------------------------------------

  /** A sequence cut into consecutive batches of `size`, the last one possibly shorter. */
  function Chunks<T>(items: seq<T>, size: nat): (batches: seq<seq<T>>)
    requires size >= 1
  {
    if items == [] then []
    else if |items| <= size then [items]
    else [items[..size]] + Chunks(items[size..], size)
  }

  /** Batches lose, invent and reorder nothing; all but the last are full and none is empty. */
  lemma {:induction false} ChunksFaithful<T>(items: seq<T>, size: nat)
    requires size >= 1
    ensures Flatten(Chunks(items, size)) == items
    ensures forall b :: 0 <= b < |Chunks(items, size)| ==> 1 <= |Chunks(items, size)[b]| <= size
    ensures forall b :: 0 <= b < |Chunks(items, size)| - 1 ==> |Chunks(items, size)[b]| == size
  {
    if items == [] {
    } else if |items| <= size {
      assert Flatten([items]) == items + Flatten([]);
    } else {
      ChunksFaithful(items[size..], size);
      assert items == items[..size] + items[size..];
      assert Chunks(items, size)[1..] == Chunks(items[size..], size);
    }
  }

  /** Those properties have one solution: any such cut of `items` is `Chunks(items, size)`. */
  lemma {:induction false} ChunksUnique<T>(batches: seq<seq<T>>, size: nat)
    requires size >= 1
    requires forall b :: 0 <= b < |batches| ==> 1 <= |batches[b]| <= size
    requires forall b :: 0 <= b < |batches| - 1 ==> |batches[b]| == size
    ensures Chunks(Flatten(batches), size) == batches
  {
    if |batches| == 1 {
      assert Flatten(batches) == batches[0] + Flatten(batches[1..]) == batches[0];
    } else if |batches| > 1 {
      var all, rest := Flatten(batches), Flatten(batches[1..]);
      ChunksUnique(batches[1..], size);
      assert |batches[0]| == size && |batches[1]| >= 1;
      assert rest == batches[1] + Flatten(batches[1..][1..]);
      assert all[..size] == batches[0] && all[size..] == rest;
    }
  }

  /** Where batch number `b` starts: `b * size`, counted up. */
  function ChunkStart(size: nat, b: nat): (start: nat)
    ensures b > 0 ==> start >= size
  {
    if b == 0 then 0 else size + ChunkStart(size, b - 1)
  }

  lemma {:induction false} ChunkStartIs(size: nat, b: nat)
    ensures ChunkStart(size, b) == b * size
  {
    if b > 0 {
      ChunkStartIs(size, b - 1);
      assert b * size == (b - 1) * size + size;
    }
  }

  /** The stretch of up to `size` items from position `start`. */
  function Stretch<T>(items: seq<T>, size: nat, start: nat): (part: seq<T>)
    requires start <= |items|
  {
    if start + size <= |items| then items[start..start + size] else items[start..]
  }

  /** Batch number `b` is the stretch of the input from position `b * size`, and there is such a
      batch as long as that position is inside the input. */
  lemma {:induction false} ChunkAt<T>(items: seq<T>, size: nat, b: nat)
    requires size >= 1
    ensures b < |Chunks(items, size)| <==> ChunkStart(size, b) < |items|
    ensures b < |Chunks(items, size)| ==> Chunks(items, size)[b] == Stretch(items, size, ChunkStart(size, b))
  {
    if |items| <= size {
      assert b > 0 ==> ChunkStart(size, b) >= |items|;
      assert items[0..] == items && (|items| == size ==> items[0..size] == items);
    } else if b == 0 {
      assert Chunks(items, size)[0] == items[..size] == items[0..size];
    } else {
      ChunkAt(items[size..], size, b - 1);
      LaterChunk(items, size, b);
      if ChunkStart(size, b) < |items| {
        LaterStretch(items, size, ChunkStart(size, b - 1));
      }
    }
  }

  lemma LaterChunk<T>(items: seq<T>, size: nat, b: nat)
    requires |items| > size >= 1 && b > 0
    ensures b < |Chunks(items, size)| <==> b - 1 < |Chunks(items[size..], size)|
    ensures b < |Chunks(items, size)| ==> Chunks(items, size)[b] == Chunks(items[size..], size)[b - 1]
  {
    ConsAt(items[..size], Chunks(items[size..], size), b);
  }

  lemma ConsAt<T>(first: T, rest: seq<T>, b: nat)
    requires b > 0
    ensures b < |[first] + rest| <==> b - 1 < |rest|
    ensures b < |[first] + rest| ==> ([first] + rest)[b] == rest[b - 1]
  {
  }

  lemma LaterStretch<T>(items: seq<T>, size: nat, start: nat)
    requires size + start <= |items|
    ensures Stretch(items[size..], size, start) == Stretch(items, size, size + start)
  {
    if start + size <= |items| - size {
      assert items[size..][start..start + size] == items[size + start..size + start + size];
    } else {
      assert items[size..][start..] == items[size + start..];
    }
  }

  class BatchTransform<T> {
    var batch: seq<T>
    const batchSize: int
    var pushed: seq<seq<T>>
    ghost var received: seq<T>

    /** A limit below 1 acts as 1: every item fills its batch at once. */
    function Size(): nat {
      if batchSize < 1 then 1 else batchSize
    }

    ghost predicate Valid()
      reads this
    {
      && |batch| < Size()
      && (forall b :: 0 <= b < |pushed| ==> |pushed[b]| == Size())
      && Flatten(pushed) + batch == received
    }

    constructor (batchSize: int)
      ensures Valid() && received == [] && this.batchSize == batchSize
    {
      this.batchSize := batchSize;
      batch, pushed, received := [], [], [];
    }

    method Transform(chunk: T)
      requires Valid()
      modifies this
      ensures Valid() && received == old(received) + [chunk]
    {
      batch := batch + [chunk];
      received := received + [chunk];
      if |batch| >= batchSize {
        FlattenAppend(pushed, [batch]);
        assert Flatten([batch]) == batch + Flatten([]);
        pushed := pushed + [batch];
        batch := [];
      }
    }

    /** After the flush the stream has emitted exactly the batches of what it received. */
    method Flush()
      requires Valid()
      modifies this
      ensures received == old(received) && pushed == Chunks(received, Size())
    {
      FlattenAppend(pushed, [batch]);
      assert Flatten([batch]) == batch + Flatten([]);
      if |batch| > 0 {
        pushed := pushed + [batch];
      }
      assert Flatten(pushed) == received;
      ChunksUnique(pushed, Size());
    }
  }

  /** A whole stream through `BatchTransform`. */
  method BatchAll<T>(items: seq<T>, batchSize: int) returns (batches: seq<seq<T>>)
    ensures batches == Chunks(items, if batchSize < 1 then 1 else batchSize)
  {
    var transform := new BatchTransform<T>(batchSize);
    for i := 0 to |items|
      invariant fresh(transform) && transform.Valid()
      invariant transform.received == items[..i]
    {
      transform.Transform(items[i]);
      assert items[..i + 1] == items[..i] + [items[i]];
    }
    assert items[..|items|] == items;
    transform.Flush();
    batches := transform.pushed;
  }

  // ---------------------------------------------------------------------------------------
  // NDJSON
  // ---------------------------------------------------------------------------------------

  /** `JSON.parse`, which either yields a value or throws. */
  datatype Parsed<+V> = Ok(value: V) | SyntaxError(reason: string)

  /** What the parser pushes: a parsed value or an error item, with the line it stood on. */
  datatype LineItem<+V> = Data(value: V, line: nat) | Bad(line: nat, reason: string, raw: string)

  function ItemAt<V>(parse: string -> Parsed<V>, trimmed: string, line: nat): (item: LineItem<V>)
    ensures item.line == line
  {
    match parse(trimmed)
    case Ok(value) => Data(value, line)
    case SyntaxError(reason) => Bad(line, reason, trimmed)
  }

  /** One item per non-blank line, numbered from `first`. */
  function ItemsOf<V>(parse: string -> Parsed<V>, lines: seq<string>, first: nat): (items: seq<LineItem<V>>) {
    if lines == [] then []
    else
      (if Trim(lines[0]) == "" then [] else [ItemAt(parse, Trim(lines[0]), first)])
      + ItemsOf(parse, lines[1..], first + 1)
  }

  /** The one-shot reading of a whole NDJSON text. */
  function NdjsonItems<V>(parse: string -> Parsed<V>, text: string): (items: seq<LineItem<V>>) {
    ItemsOf(parse, Split(text, '\n'), 1)
  }

  lemma {:induction false} ItemsAppend<V>(parse: string -> Parsed<V>, a: seq<string>, b: seq<string>, first: nat)
    ensures ItemsOf(parse, a + b, first) == ItemsOf(parse, a, first) + ItemsOf(parse, b, first + |a|)
  {
    if a == [] {
      assert a + b == b;
    } else {
      ItemsAppend(parse, a[1..], b, first + 1);
      assert (a + b)[0] == a[0] && (a + b)[1..] == a[1..] + b;
      var head := if Trim(a[0]) == "" then [] else [ItemAt(parse, Trim(a[0]), first)];
      assert ItemsOf(parse, a, first) == head + ItemsOf(parse, a[1..], first + 1);
      assert ItemsOf(parse, a + b, first) == head + ItemsOf(parse, a[1..] + b, first + 1);
    }
  }

  lemma ItemsSnoc<V>(parse: string -> Parsed<V>, lines: seq<string>, line: string, first: nat)
    ensures ItemsOf(parse, lines + [line], first)
         == ItemsOf(parse, lines, first)
            + if Trim(line) == "" then [] else [ItemAt(parse, Trim(line), first + |lines|)]
  {
    ItemsAppend(parse, lines, [line], first);
    assert ItemsOf(parse, [line][1..], first + |lines| + 1) == [];
  }

  /** What the one-shot reading says: its items are exactly the non-blank lines, each with its
      own line number, in increasing order. */
  lemma {:induction false} ItemIsNonBlankLine<V>(parse: string -> Parsed<V>, lines: seq<string>, first: nat, i: nat)
    requires i < |ItemsOf(parse, lines, first)|
    ensures var items := ItemsOf(parse, lines, first);
      var n := items[i].line - first;
      && 0 <= n < |lines| && Trim(lines[n]) != ""
      && items[i] == (match parse(Trim(lines[n]))
                      case Ok(value) => Data(value, first + n)
                      case SyntaxError(reason) => Bad(first + n, reason, Trim(lines[n])))
      && (i > 0 ==> items[i - 1].line < items[i].line)
  {
    var k := if Trim(lines[0]) == "" then 0 else 1;
    if i >= k {
      ItemIsNonBlankLine(parse, lines[1..], first + 1, i - k);
    }
  }

  lemma {:induction false} NonBlankLineHasItem<V>(parse: string -> Parsed<V>, lines: seq<string>, first: nat, n: nat)
    returns (i: nat)
    requires n < |lines| && Trim(lines[n]) != ""
    ensures i < |ItemsOf(parse, lines, first)|
    ensures ItemsOf(parse, lines, first)[i].line == first + n
  {
    if n == 0 {
      i := 0;
    } else {
      i := NonBlankLineHasItem(parse, lines[1..], first + 1, n - 1);
      i := if Trim(lines[0]) == "" then i else i + 1;
    }
  }

  class NdjsonParseTransform<V> {
    const parse: string -> Parsed<V>
    var buffer: string
    var lineNumber: nat
    var pushed: seq<LineItem<V>>
    ghost var received: string

    ghost predicate Valid()
      reads this
    {
      var lines := Split(received, '\n');
      && buffer == Last(lines)
      && lineNumber == |lines| - 1
      && pushed == ItemsOf(parse, AllButLast(lines), 1)
    }

    constructor (parse: string -> Parsed<V>)
      ensures Valid() && received == "" && this.parse == parse
    {
      this.parse := parse;
      buffer, lineNumber, pushed, received := "", 0, [], "";
    }

    /** The loop of `_transform` over the completed lines. */
    method PushLines(lines: seq<string>, ghost before: seq<string>)
      requires lineNumber == |before| && pushed == ItemsOf(parse, before, 1)
      modifies this`lineNumber, this`pushed
      ensures lineNumber == |before + lines| && pushed == ItemsOf(parse, before + lines, 1)
    {
      assert before + lines[..0] == before;
      for i := 0 to |lines|
        invariant lineNumber == |before| + i
        invariant pushed == ItemsOf(parse, before + lines[..i], 1)
      {
        lineNumber := lineNumber + 1;
        var trimmed := Trim(lines[i]);
        ItemsSnoc(parse, before + lines[..i], lines[i], 1);
        assert before + lines[..i + 1] == before + lines[..i] + [lines[i]];
        if trimmed == "" {
          continue;
        }
        match parse(trimmed)
        case Ok(value) => pushed := pushed + [Data(value, lineNumber)];
        case SyntaxError(reason) => pushed := pushed + [Bad(lineNumber, reason, trimmed)];
      }
      assert lines[..|lines|] == lines;
    }

    method Transform(chunk: string)
      requires Valid()
      modifies this
      ensures Valid() && received == old(received) + chunk
    {
      SplitResume(received, chunk, '\n');
      ghost var before := AllButLast(Split(received, '\n'));
      var lines := Split(buffer + chunk, '\n');
      received := received + chunk;
      assert AllButLast(Split(received, '\n')) == before + AllButLast(lines);
      buffer := Last(lines);
      PushLines(AllButLast(lines), before);
    }

    /** The buffered rest counts as a last line; everything received has then been itemised. */
    method Flush()
      requires Valid()
      modifies this
      ensures received == old(received) && pushed == NdjsonItems(parse, received)
    {
      ghost var lines := Split(received, '\n');
      ItemsSnoc(parse, AllButLast(lines), buffer, 1);
      assert lines == AllButLast(lines) + [buffer];
      if Trim(buffer) != "" {
        lineNumber := lineNumber + 1;
        match parse(Trim(buffer))
        case Ok(value) => pushed := pushed + [Data(value, lineNumber)];
        case SyntaxError(reason) => pushed := pushed + [Bad(lineNumber, reason, Trim(buffer))];
      }
    }
  }

  /** However a text is cut into chunks, the incremental parser emits the items of the whole text. */
  method ParseNdjson<V>(parse: string -> Parsed<V>, chunks: seq<string>) returns (items: seq<LineItem<V>>)
    ensures items == NdjsonItems(parse, Flatten(chunks))
  {
    var transform := new NdjsonParseTransform<V>(parse);
    for i := 0 to |chunks|
      invariant fresh(transform) && transform.Valid() && transform.parse == parse
      invariant transform.received == Flatten(chunks[..i])
    {
      FlattenAppend(chunks[..i], [chunks[i]]);
      assert chunks[..i + 1] == chunks[..i] + [chunks[i]];
      assert Flatten([chunks[i]]) == chunks[i] + Flatten([]);
      transform.Transform(chunks[i]);
    }
    assert chunks[..|chunks|] == chunks;
    transform.Flush();
    items := transform.pushed;
  }

  /** `NdjsonStringifyTransform` over a whole stream. */
  function NdjsonText<V>(stringify: V -> string, values: seq<V>): (text: string) {
    if values == [] then "" else stringify(values[0]) + "\n" + NdjsonText(stringify, values[1..])
  }

  /** What is assumed of JSON for one value: its text has no raw newline (section 7 of RFC 8259
      forbids unescaped control characters in strings), starts and ends on a non-space (an
      object's braces, section 4), and parses back to the value. */
  ghost predicate Faithful<V>(stringify: V -> string, parse: string -> Parsed<V>, value: V) {
    var text := stringify(value);
    && '\n' !in text
    && text != "" && !IsSpace(text[0]) && !IsSpace(text[|text| - 1])
    && parse(text) == Ok(value)
  }

  /** The items expected for `values` standing on consecutive lines. */
  function Numbered<V>(values: seq<V>, first: nat): (items: seq<LineItem<V>>)
    ensures |items| == |values|
    ensures forall i :: 0 <= i < |values| ==> items[i] == Data(values[i], first + i)
  {
    seq(|values|, i requires 0 <= i < |values| => Data(values[i], first + i))
  }

  lemma NumberedCons<V>(values: seq<V>, first: nat)
    requires values != []
    ensures Numbered(values, first) == [Data(values[0], first)] + Numbered(values[1..], first + 1)
  {
  }

  lemma {:induction false} NdjsonTextLines<V>(stringify: V -> string, parse: string -> Parsed<V>,
                                              values: seq<V>, first: nat)
    requires forall v :: v in values ==> Faithful(stringify, parse, v)
    ensures ItemsOf(parse, Split(NdjsonText(stringify, values), '\n'), first) == Numbered(values, first)
  {
    if values == [] {
      assert Split("", '\n') == [""];
    } else {
      assert Faithful(stringify, parse, values[0]);
      NdjsonTextLines(stringify, parse, values[1..], first + 1);
      var line, rest := stringify(values[0]), NdjsonText(stringify, values[1..]);
      FirstLine(parse, line, rest, first);
      assert ItemAt(parse, line, first) == Data(values[0], first);
      NumberedCons(values, first);
    }
  }

  /** A line with no outer spaces, and what follows it. */
  lemma FirstLine<V>(parse: string -> Parsed<V>, line: string, rest: string, first: nat)
    requires '\n' !in line && line != "" && !IsSpace(line[0]) && !IsSpace(line[|line| - 1])
    ensures ItemsOf(parse, Split(line + "\n" + rest, '\n'), first)
         == [ItemAt(parse, line, first)] + ItemsOf(parse, Split(rest, '\n'), first + 1)
  {
    SplitPiece(line, rest, '\n');
    assert line + "\n" + rest == line + ['\n'] + rest;
    var lines := Split(line + "\n" + rest, '\n');
    assert lines[0] == line && lines[1..] == Split(rest, '\n');
    assert Trim(line) == line;
  }

  /** Round trip: values written as NDJSON, the text cut anywhere into chunks and parsed again,
      come back in order on lines 1..n, with no error item. */
  method NdjsonRoundTrip<V>(stringify: V -> string, parse: string -> Parsed<V>,
                            values: seq<V>, chunks: seq<string>) returns (items: seq<LineItem<V>>)
    requires forall v :: v in values ==> Faithful(stringify, parse, v)
    requires Flatten(chunks) == NdjsonText(stringify, values)
    ensures |items| == |values|
    ensures forall i :: 0 <= i < |values| ==> items[i] == Data(values[i], i + 1)
  {
    NdjsonTextLines(stringify, parse, values, 1);
    items := ParseNdjson(parse, chunks);
  }

  // ---------------------------------------------------------------------------------------
  // Line reader
  // ---------------------------------------------------------------------------------------

  datatype Line = Line(text: string, number: nat)

  function NumberedLines(lines: seq<string>, first: nat): (items: seq<Line>)
    ensures |items| == |lines|
    ensures forall i :: 0 <= i < |lines| ==> items[i] == Line(lines[i], first + i)
  {
    seq(|lines|, i requires 0 <= i < |lines| => Line(lines[i], first + i))
  }

  lemma NumberedAppend(lines: seq<string>, line: string, first: nat)
    ensures NumberedLines(lines + [line], first) == NumberedLines(lines, first) + [Line(line, first + |lines|)]
  {
    assert forall i :: 0 <= i < |lines| ==> (lines + [line])[i] == lines[i];
  }

  /** Every piece of the text between newlines, untrimmed; an empty last piece is no line. */
  function TextLinesOf(text: string): (items: seq<Line>) {
    var lines := Split(text, '\n');
    NumberedLines(if Last(lines) == "" then AllButLast(lines) else lines, 1)
  }

  /** Lines written with a newline after each are read back, empty ones included; after the last one it
      may be missing, unless that line is empty. */
  lemma LinesReadBack(lines: seq<string>)
    requires lines != [] && forall i :: 0 <= i < |lines| ==> '\n' !in lines[i]
    ensures TextLinesOf(Join(lines, '\n') + "\n") == NumberedLines(lines, 1)
    ensures lines[|lines| - 1] != "" ==> TextLinesOf(Join(lines, '\n')) == NumberedLines(lines, 1)
  {
    SplitJoin(lines, '\n');
    var closed := lines + [""];
    JoinSnoc(lines, "", '\n');
    SplitJoin(closed, '\n');
    assert Join(closed, '\n') == Join(lines, '\n') + "\n";
    assert closed[..|lines|] == lines;
  }

  class LineReaderTransform {
    var buffer: string
    var lineNumber: nat
    var pushed: seq<Line>
    ghost var received: string

    ghost predicate Valid()
      reads this
    {
      var lines := Split(received, '\n');
      && buffer == Last(lines)
      && lineNumber == |lines| - 1
      && pushed == NumberedLines(AllButLast(lines), 1)
    }

    constructor ()
      ensures Valid() && received == ""
    {
      buffer, lineNumber, pushed, received := "", 0, [], "";
    }

    /** The loop of `_transform` over the completed lines. */
    method PushLines(lines: seq<string>, ghost before: seq<string>)
      requires lineNumber == |before| && pushed == NumberedLines(before, 1)
      modifies this`lineNumber, this`pushed
      ensures lineNumber == |before + lines| && pushed == NumberedLines(before + lines, 1)
    {
      assert before + lines[..0] == before;
      for i := 0 to |lines|
        invariant lineNumber == |before| + i
        invariant pushed == NumberedLines(before + lines[..i], 1)
      {
        lineNumber := lineNumber + 1;
        pushed := pushed + [Line(lines[i], lineNumber)];
        NumberedAppend(before + lines[..i], lines[i], 1);
        assert before + lines[..i + 1] == before + lines[..i] + [lines[i]];
      }
      assert lines[..|lines|] == lines;
    }

    method Transform(chunk: string)
      requires Valid()
      modifies this
      ensures Valid() && received == old(received) + chunk
    {
      SplitResume(received, chunk, '\n');
      ghost var before := AllButLast(Split(received, '\n'));
      var lines := Split(buffer + chunk, '\n');
      received := received + chunk;
      assert AllButLast(Split(received, '\n')) == before + AllButLast(lines);
      buffer := Last(lines);
      PushLines(AllButLast(lines), before);
    }

    method Flush()
      requires Valid()
      modifies this
      ensures received == old(received) && pushed == TextLinesOf(received)
    {
      ghost var lines := Split(received, '\n');
      NumberedAppend(AllButLast(lines), buffer, 1);
      assert lines == AllButLast(lines) + [buffer];
      if buffer != "" {
        lineNumber := lineNumber + 1;
        pushed := pushed + [Line(buffer, lineNumber)];
      }
    }
  }

  /** Line reading does not depend on how the text is cut into chunks. */
  method ReadLines(chunks: seq<string>) returns (lines: seq<Line>)
    ensures lines == TextLinesOf(Flatten(chunks))
  {
    var transform := new LineReaderTransform();
    for i := 0 to |chunks|
      invariant fresh(transform) && transform.Valid()
      invariant transform.received == Flatten(chunks[..i])
    {
      FlattenAppend(chunks[..i], [chunks[i]]);
      assert chunks[..i + 1] == chunks[..i] + [chunks[i]];
      assert Flatten([chunks[i]]) == chunks[i] + Flatten([]);
      transform.Transform(chunks[i]);
    }
    assert chunks[..|chunks|] == chunks;
    transform.Flush();
    lines := transform.pushed;
  }
}
