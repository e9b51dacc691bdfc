/** JavaScript's `split` on one character and `trim`, with the facts the stream parsers rest on. */
module TextLines {

  /** `text.split(sep)`: always at least one piece. */
  function Split(text: string, sep: char): (pieces: seq<string>)
    ensures |pieces| >= 1
  {
    if text == "" then [""]
    else
      var rest := Split(text[1..], sep);
      if text[0] == sep then [""] + rest
      else [[text[0]] + rest[0]] + rest[1..]
  }

  /** `pieces.join(sep)`. */
  function Join(pieces: seq<string>, sep: char): (text: string)
    requires |pieces| >= 1
  {
    if |pieces| == 1 then pieces[0] else pieces[0] + [sep] + Join(pieces[1..], sep)
  }

  function Last(pieces: seq<string>): (piece: string)
    requires |pieces| >= 1
  {
    pieces[|pieces| - 1]
  }

  function AllButLast(pieces: seq<string>): (front: seq<string>)
    requires |pieces| >= 1
  {
    pieces[..|pieces| - 1]
  }

  /** Joining undoes splitting, and no piece holds the separator. */
  lemma {:induction false} JoinSplit(text: string, sep: char)
    ensures Join(Split(text, sep), sep) == text
    ensures forall i :: 0 <= i < |Split(text, sep)| ==> sep !in Split(text, sep)[i]
  {
    if text != "" {
      var rest := Split(text[1..], sep);
      JoinSplit(text[1..], sep);
      if text[0] == sep {
        assert Split(text, sep)[1..] == rest;
      } else {
        assert Split(text, sep)[1..] == rest[1..];
        assert text == [text[0]] + text[1..];
      }
    }
  }

  /** A piece free of separators starts the split of any text it begins. */
  lemma {:induction false} SplitPiece(piece: string, rest: string, sep: char)
    requires sep !in piece
    ensures Split(piece, sep) == [piece]
    ensures Split(piece + [sep] + rest, sep) == [piece] + Split(rest, sep)
  {
    if piece == "" {
      assert ([sep] + rest)[1..] == rest;
      assert piece + [sep] + rest == [sep] + rest;
    } else {
      SplitPiece(piece[1..], rest, sep);
      assert (piece + [sep] + rest)[1..] == piece[1..] + [sep] + rest;
      assert piece == [piece[0]] + piece[1..];
    }
  }

  /** Splitting undoes joining: `Split` is the only way to cut a text at its separators. */
  lemma {:induction false} SplitJoin(pieces: seq<string>, sep: char)
    requires |pieces| >= 1
    requires forall i :: 0 <= i < |pieces| ==> sep !in pieces[i]
    ensures Split(Join(pieces, sep), sep) == pieces
  {
    if |pieces| == 1 {
      SplitPiece(pieces[0], "", sep);
    } else {
      SplitJoin(pieces[1..], sep);
      SplitPiece(pieces[0], Join(pieces[1..], sep), sep);
    }
  }

  lemma {:induction false} JoinSnoc(pieces: seq<string>, piece: string, sep: char)
    requires |pieces| >= 1
    ensures Join(pieces + [piece], sep) == Join(pieces, sep) + [sep] + piece
  {
    if |pieces| == 1 {
      assert (pieces + [piece])[1..] == [piece];
    } else {
      JoinSnoc(pieces[1..], piece, sep);
      assert (pieces + [piece])[1..] == pieces[1..] + [piece];
    }
  }

  /** Splitting can be resumed: only the last, still open piece matters to the text that follows. */
  lemma {:induction false} SplitResume(a: string, b: string, sep: char)
    ensures Split(a + b, sep) == AllButLast(Split(a, sep)) + Split(Last(Split(a, sep)) + b, sep)
  {
    JoinSplit(a, sep);
    ResumeJoin(Split(a, sep), b, sep);
  }

  lemma {:induction false} ResumeJoin(pieces: seq<string>, b: string, sep: char)
    requires |pieces| >= 1
    requires forall i :: 0 <= i < |pieces| ==> sep !in pieces[i]
    ensures Split(Join(pieces, sep) + b, sep) == AllButLast(pieces) + Split(Last(pieces) + b, sep)
  {
    if |pieces| == 1 {
      assert AllButLast(pieces) == [];
    } else {
      ResumeJoin(pieces[1..], b, sep);
      ResumeOne(pieces[0], Join(pieces[1..], sep), b, sep);
      assert AllButLast(pieces) == [pieces[0]] + AllButLast(pieces[1..]);
      assert Last(pieces) == Last(pieces[1..]);
    }
  }

  lemma ResumeOne(piece: string, joined: string, b: string, sep: char)
    requires sep !in piece
    ensures Split(piece + [sep] + joined + b, sep) == [piece] + Split(joined + b, sep)
  {
    SplitPiece(piece, joined + b, sep);
    assert piece + [sep] + joined + b == piece + [sep] + (joined + b);
  }

  /** The characters that `trim` and `\s` treat as white space. */
  predicate IsSpace(c: char) {
    || '\t' <= c <= '\r'
    || c == ' '
    || c as int in {0xA0, 0x1680, 0x2028, 0x2029, 0x202F, 0x205F, 0x3000, 0xFEFF}
    || 0x2000 <= c as int <= 0x200A
  }

  function TrimStart(s: string): (r: string) {
    if s != "" && IsSpace(s[0]) then TrimStart(s[1..]) else s
  }

  function TrimEnd(s: string): (r: string) {
    if s != "" && IsSpace(s[|s| - 1]) then TrimEnd(s[..|s| - 1]) else s
  }

  function Trim(s: string): (r: string) {
    TrimEnd(TrimStart(s))
  }

  /** The white space and line terminators of section 12 of ECMA-262, one by one. */
  lemma WhiteSpaceIs(c: char)
    ensures IsSpace(c) <==>
      c in "\t\n\U{0B}\U{0C}\r \U{A0}\U{1680}\U{2000}\U{2001}\U{2002}\U{2003}\U{2004}\U{2005}\U{2006}\U{2007}"
           + "\U{2008}\U{2009}\U{200A}\U{2028}\U{2029}\U{202F}\U{205F}\U{3000}\U{FEFF}"
  {
  }

  /** Trimming takes white space off both ends, all of it and nothing else. */
  lemma {:induction false} TrimMeans(s: string) returns (front: string, back: string)
    ensures s == front + Trim(s) + back
    ensures forall c :: c in front || c in back ==> IsSpace(c)
    ensures Trim(s) != "" ==> !IsSpace(Trim(s)[0]) && !IsSpace(Trim(s)[|Trim(s)| - 1])
    ensures Trim(s) == "" <==> forall c :: c in s ==> IsSpace(c)
  {
    front := TrimStartMeans(s);
    back := TrimEndMeans(TrimStart(s));
    if Trim(s) != "" {
      assert TrimStart(s)[0] == Trim(s)[0];
      assert s[|front|] == Trim(s)[0];
    }
  }

  lemma {:induction false} TrimStartMeans(s: string) returns (front: string)
    ensures s == front + TrimStart(s) && forall c :: c in front ==> IsSpace(c)
    ensures TrimStart(s) != "" ==> !IsSpace(TrimStart(s)[0])
  {
    if s != "" && IsSpace(s[0]) {
      front := TrimStartMeans(s[1..]);
      front := [s[0]] + front;
    } else {
      front := "";
    }
  }

  lemma {:induction false} TrimEndMeans(s: string) returns (back: string)
    ensures s == TrimEnd(s) + back && forall c :: c in back ==> IsSpace(c)
    ensures TrimEnd(s) != "" ==> !IsSpace(TrimEnd(s)[|TrimEnd(s)| - 1])
  {
    if s != "" && IsSpace(s[|s| - 1]) {
      back := TrimEndMeans(s[..|s| - 1]);
      back := back + [s[|s| - 1]];
    } else {
      back := "";
    }
  }
}
