/** Slug rules of `validation.utils.ts`: the multi-pass normaliser and the validator. */
module Slugs {
  import opened TextLines

  predicate IsLowerAlnum(c: char) {
    'a' <= c <= 'z' || '0' <= c <= '9'
  }

  /** `\w`. */
  predicate IsWord(c: char) {
    IsLowerAlnum(c) || 'A' <= c <= 'Z' || c == '_'
  }

  predicate AllAlnum(s: string) {
    forall i :: 0 <= i < |s| ==> IsLowerAlnum(s[i])
  }

  predicate AllWords(words: seq<string>) {
    forall i :: 0 <= i < |words| ==> words[i] != "" && AllAlnum(words[i])
  }

  /** `^[a-z0-9]+(?:-[a-z0-9]+)*$`: non-empty alphanumeric words with single hyphens between. */
  predicate IsValidSlug(slug: string) {
    AllWords(Split(slug, '-'))
  }

  predicate SlugChars(s: string) {
    forall i :: 0 <= i < |s| ==> IsLowerAlnum(s[i]) || s[i] == '-'
  }

  predicate NoDoubleHyphen(s: string) {
    |s| < 2 || ((s[0] != '-' || s[1] != '-') && NoDoubleHyphen(s[1..]))
  }

  /** The slug language said of neighbouring characters instead of words. */
  predicate SlugShape(s: string) {
    s != "" && s[0] != '-' && s[|s| - 1] != '-' && SlugChars(s) && NoDoubleHyphen(s)
  }

  lemma ValidSlugShape(s: string)
    ensures IsValidSlug(s) <==> SlugShape(s)
  {
    var words := Split(s, '-');
    WordsShape(s);
    assert words == [words[0]] + words[1..];
    assert AllWords(words) <==> words[0] != "" && AllAlnum(words[0]) && AllWords(words[1..]) by {
      AllWordsCons(words);
    }
  }

  lemma AllWordsCons(words: seq<string>)
    requires words != []
    ensures AllWords(words) <==> words[0] != "" && AllAlnum(words[0]) && AllWords(words[1..])
  {
    if AllWords(words[1..]) {
      assert forall i :: 1 <= i < |words| ==> words[i] == words[1..][i - 1];
    }
  }

  lemma AlnumCons(c: char, word: string)
    ensures AllAlnum([c] + word) <==> IsLowerAlnum(c) && AllAlnum(word)
  {
    if AllAlnum([c] + word) {
      assert forall i :: 0 <= i < |word| ==> word[i] == ([c] + word)[i + 1];
      assert ([c] + word)[0] == c;
    }
  }

  /** What may follow an alphanumeric character in a slug. */
  lemma {:induction false} WordsShape(s: string)
    ensures AllAlnum(Split(s, '-')[0]) && AllWords(Split(s, '-')[1..])
       <==> s == "" || (s[|s| - 1] != '-' && SlugChars(s) && NoDoubleHyphen(s))
    ensures Split(s, '-')[0] == "" <==> s == "" || s[0] == '-'
  {
    if s != "" {
      var words, rest := Split(s, '-'), Split(s[1..], '-');
      WordsShape(s[1..]);
      assert SlugChars(s) <==> (IsLowerAlnum(s[0]) || s[0] == '-') && SlugChars(s[1..]) by {
        assert s == [s[0]] + s[1..];
      }
      if s[0] == '-' {
        assert words[0] == "" && words[1..] == rest;
        AllWordsCons(rest);
      } else {
        assert words[0] == [s[0]] + rest[0] && words[1..] == rest[1..];
        assert AllAlnum(words[0]) <==> IsLowerAlnum(s[0]) && AllAlnum(rest[0]) by {
          AlnumCons(s[0], rest[0]);
        }
      }
    }
  }

  // ---------------------------------------------------------------------------------------
  // The normaliser, pass by pass
  // ---------------------------------------------------------------------------------------

  /** `replace(/[^\w\s-]/g, '')`. */
  function RemoveOthers(s: string): (r: string) {
    if s == "" then ""
    else (if IsWord(s[0]) || IsSpace(s[0]) || s[0] == '-' then [s[0]] else "") + RemoveOthers(s[1..])
  }

  function DropRun(s: string, inRun: char -> bool): (r: string)
    ensures |r| <= |s|
    ensures r == s[|s| - |r|..]
    ensures r != "" ==> !inRun(r[0])
  {
    if s != "" && inRun(s[0]) then DropRun(s[1..], inRun) else s
  }

  /** `replace(/[...]+/g, '-')`: each longest run of the class becomes one hyphen. */
  function CollapseRuns(s: string, inRun: char -> bool): (r: string)
    decreases |s|
  {
    if s == "" then ""
    else if inRun(s[0]) then "-" + CollapseRuns(DropRun(s[1..], inRun), inRun)
    else [s[0]] + CollapseRuns(s[1..], inRun)
  }

  predicate IsGap(c: char) {
    IsSpace(c) || c == '_'
  }

  predicate IsHyphen(c: char) {
    c == '-'
  }

  /** `replace(/^-|-$/g, '')`. */
  function StripHyphens(s: string): (r: string) {
    var t := if s != "" && s[0] == '-' then s[1..] else s;
    if t != "" && t[|t| - 1] == '-' then t[..|t| - 1] else t
  }

  function ToKebabCase(lower: string -> string, s: string): (slug: string) {
    var kept := RemoveOthers(Trim(lower(s)));
    var hyphened := CollapseRuns(kept, IsGap);
    StripHyphens(CollapseRuns(hyphened, IsHyphen))
  }

  /** What is used of `toLowerCase`: no ASCII capital is left, and slugs are already lower case. */
  ghost predicate Lowers(lower: string -> string) {
    && (forall s, i :: 0 <= i < |lower(s)| ==> !('A' <= lower(s)[i] <= 'Z'))
    && (forall s :: SlugChars(s) ==> lower(s) == s)
  }

  lemma {:induction false} RemovedChars(s: string)
    requires forall i :: 0 <= i < |s| ==> !('A' <= s[i] <= 'Z')
    ensures forall i :: 0 <= i < |RemoveOthers(s)| ==>
              var c := RemoveOthers(s)[i]; IsLowerAlnum(c) || c == '_' || IsSpace(c) || c == '-'
    ensures SlugChars(s) ==> RemoveOthers(s) == s
  {
    if s != "" {
      RemovedChars(s[1..]);
    }
  }

  /** A collapsed string has hyphens and the characters outside the class, and nothing else. */
  lemma {:induction false} CollapsedChars(s: string, inRun: char -> bool)
    ensures forall i :: 0 <= i < |CollapseRuns(s, inRun)| ==>
              var c := CollapseRuns(s, inRun)[i]; c == '-' || (c in s && !inRun(c))
    ensures (forall i :: 0 <= i < |s| ==> !inRun(s[i])) ==> CollapseRuns(s, inRun) == s
    decreases |s|
  {
    if s != "" {
      if inRun(s[0]) {
        CollapsedChars(DropRun(s[1..], inRun), inRun);
      } else {
        CollapsedChars(s[1..], inRun);
      }
    }
  }

  /** Collapsing hyphens leaves no two side by side, and changes nothing where there were none. */
  lemma {:induction false} CollapsedHyphens(s: string)
    ensures var r := CollapseRuns(s, IsHyphen);
      && NoDoubleHyphen(r)
      && (s != "" ==> r != "" && r[0] == s[0])
      && (NoDoubleHyphen(s) ==> r == s)
    decreases |s|
  {
    if s != "" {
      var rest := if s[0] == '-' then DropRun(s[1..], IsHyphen) else s[1..];
      CollapsedHyphens(rest);
      if NoDoubleHyphen(s) {
        assert rest == s[1..];
      }
      var r := CollapseRuns(rest, IsHyphen);
      assert ([s[0]] + r)[1..] == r;
    }
  }

  lemma {:induction false} TrimKeepsUnspaced(s: string)
    requires s != "" ==> !IsSpace(s[0]) && !IsSpace(s[|s| - 1])
    ensures Trim(s) == s
  {
  }

  lemma {:induction false} TrimmedIsInside(s: string)
    ensures exists i, j :: 0 <= i <= j <= |s| && Trim(s) == s[i..j]
  {
    var j := TrimEndIsPrefix(TrimStart(s));
    var i := TrimStartIsSuffix(s);
    assert s[i..][..j] == s[i..i + j];
  }

  lemma {:induction false} TrimStartIsSuffix(s: string) returns (i: nat)
    ensures i <= |s| && TrimStart(s) == s[i..]
  {
    if s != "" && IsSpace(s[0]) {
      i := TrimStartIsSuffix(s[1..]);
      i := i + 1;
    } else {
      i := 0;
    }
  }

  lemma {:induction false} TrimEndIsPrefix(s: string) returns (j: nat)
    ensures j <= |s| && TrimEnd(s) == s[..j]
  {
    if s != "" && IsSpace(s[|s| - 1]) {
      j := TrimEndIsPrefix(s[..|s| - 1]);
    } else {
      j := |s|;
    }
  }

  lemma {:induction false} PrefixKeepsSingle(s: string)
    requires s != "" && NoDoubleHyphen(s)
    ensures NoDoubleHyphen(s[..|s| - 1])
    ensures |s| > 1 && s[|s| - 1] == '-' ==> s[|s| - 2] != '-'
  {
    if |s| > 1 {
      PrefixKeepsSingle(s[1..]);
      assert s[..|s| - 1][1..] == s[1..][..|s| - 2];
    }
  }

  lemma StrippedShape(s: string)
    requires SlugChars(s) && NoDoubleHyphen(s)
    ensures StripHyphens(s) == "" || SlugShape(StripHyphens(s))
  {
    var t := if s != "" && s[0] == '-' then s[1..] else s;
    assert SlugChars(t) && NoDoubleHyphen(t);
    if t != "" {
      assert t[0] != '-';
      PrefixKeepsSingle(t);
    }
  }

  /** Whatever goes in, the normaliser returns the empty string or a valid slug. */
  lemma KebabCaseIsSlug(lower: string -> string, s: string)
    requires Lowers(lower)
    ensures ToKebabCase(lower, s) == "" || IsValidSlug(ToKebabCase(lower, s))
  {
    var trimmed := Trim(lower(s));
    TrimmedIsInside(lower(s));
    RemovedChars(trimmed);
    var kept := RemoveOthers(trimmed);
    var hyphened := CollapseRuns(kept, IsGap);
    CollapsedChars(kept, IsGap);
    assert SlugChars(hyphened);
    var single := CollapseRuns(hyphened, IsHyphen);
    CollapsedChars(hyphened, IsHyphen);
    CollapsedHyphens(hyphened);
    assert SlugChars(single) && NoDoubleHyphen(single);
    StrippedShape(single);
    ValidSlugShape(ToKebabCase(lower, s));
  }

  /** Lower-casing, trimming and removal leave a slug alone; below, each later pass. */
  lemma CleanKeepsSlugs(lower: string -> string, slug: string)
    requires Lowers(lower) && SlugShape(slug)
    ensures RemoveOthers(Trim(lower(slug))) == slug
  {
    assert lower(slug) == slug;
    SlugHasNoSpaces(slug);
    TrimKeepsUnspaced(slug);
    RemovedChars(slug);
  }

  lemma SlugHasNoSpaces(slug: string)
    requires SlugChars(slug)
    ensures forall i :: 0 <= i < |slug| ==> !IsGap(slug[i]) && !('A' <= slug[i] <= 'Z')
  {
  }

  lemma GapsKeepSlugs(slug: string)
    requires SlugChars(slug)
    ensures CollapseRuns(slug, IsGap) == slug
  {
    SlugHasNoSpaces(slug);
    CollapsedChars(slug, IsGap);
  }

  lemma StripKeepsSlugs(slug: string)
    requires SlugShape(slug)
    ensures StripHyphens(slug) == slug
  {
  }

  /** A valid slug is already in normal form. */
  lemma KebabCaseKeepsSlugs(lower: string -> string, slug: string)
    requires Lowers(lower) && IsValidSlug(slug)
    ensures ToKebabCase(lower, slug) == slug
  {
    ValidSlugShape(slug);
    CleanKeepsSlugs(lower, slug);
    GapsKeepSlugs(slug);
    CollapsedHyphens(slug);
    StripKeepsSlugs(slug);
  }

  /** Removal goes character by character: letters, digits, underscores, white space and hyphens stay. */
  lemma {:induction false} RemovesCharByChar(a: string, b: string, c: char)
    ensures RemoveOthers(a + b) == RemoveOthers(a) + RemoveOthers(b)
    ensures RemoveOthers([c])
         == if 'a' <= c <= 'z' || 'A' <= c <= 'Z' || '0' <= c <= '9' || c == '_' || c == '-' || IsSpace(c)
            then [c] else ""
  {
    assert [c][1..] == "";
    if a == "" {
      assert a + b == b;
    } else {
      RemovesCharByChar(a[1..], b, c);
      assert (a + b)[0] == a[0] && (a + b)[1..] == a[1..] + b;
    }
  }

  /** Words with a gap of white space and underscores between each two. */
  function Spaced(words: seq<string>, gaps: seq<string>): (text: string)
    requires |words| >= 1 && |gaps| == |words| - 1
  {
    if |words| == 1 then words[0] else words[0] + gaps[0] + Spaced(words[1..], gaps[1..])
  }

  predicate AreGaps(gaps: seq<string>) {
    forall i :: 0 <= i < |gaps| ==>
      gaps[i] != "" && forall k :: 0 <= k < |gaps[i]| ==> IsSpace(gaps[i][k]) || gaps[i][k] == '_'
  }

  lemma {:induction false} DropGap(gap: string, rest: string)
    requires forall k :: 0 <= k < |gap| ==> IsGap(gap[k])
    requires rest == "" || !IsGap(rest[0])
    ensures DropRun(gap + rest, IsGap) == rest
  {
    if gap == "" {
      assert gap + rest == rest;
    } else {
      DropGap(gap[1..], rest);
      assert (gap + rest)[0] == gap[0] && (gap + rest)[1..] == gap[1..] + rest;
    }
  }

  predicate CollapsesTo(text: string, result: string) {
    CollapseRuns(text, IsGap) == result
  }

  lemma CollapseLetter(c: char, rest: string, result: string)
    requires !IsGap(c) && CollapsesTo(rest, result)
    ensures CollapsesTo([c] + rest, [c] + result)
  {
    assert ([c] + rest)[0] == c && ([c] + rest)[1..] == rest;
  }

  lemma HeadAndTail(word: string, rest: string)
    requires word != ""
    ensures word + rest == [word[0]] + (word[1..] + rest)
  {
  }

  lemma {:induction false} CollapseWord(word: string, rest: string, result: string)
    requires AllAlnum(word) && CollapsesTo(rest, result)
    ensures CollapsesTo(word + rest, word + result)
  {
    if word == "" {
      assert word + rest == rest && word + result == result;
    } else {
      CollapseWord(word[1..], rest, result);
      CollapseLetter(word[0], word[1..] + rest, word[1..] + result);
      HeadAndTail(word, rest);
      HeadAndTail(word, result);
    }
  }

  lemma CollapseGap(gap: string, rest: string, result: string)
    requires gap != "" && forall k :: 0 <= k < |gap| ==> IsGap(gap[k])
    requires rest != "" && !IsGap(rest[0]) && CollapsesTo(rest, result)
    ensures CollapsesTo(gap + rest, ['-'] + result)
  {
    assert (gap + rest)[0] == gap[0] && (gap + rest)[1..] == gap[1..] + rest;
    DropGap(gap[1..], rest);
  }

  lemma {:induction false} KeepsAll(s: string)
    requires forall i :: 0 <= i < |s| ==> IsWord(s[i]) || IsSpace(s[i])
    ensures RemoveOthers(s) == s
  {
    if s != "" {
      KeepsAll(s[1..]);
    }
  }

  lemma {:induction false} SpacedEnds(words: seq<string>, gaps: seq<string>)
    requires |words| >= 1 && |gaps| == |words| - 1 && AllWords(words)
    ensures var text := Spaced(words, gaps); text != "" && IsLowerAlnum(text[0]) && IsLowerAlnum(text[|text| - 1])
  {
    if |words| > 1 {
      SpacedEnds(words[1..], gaps[1..]);
    }
  }

  lemma {:induction false} SpacedKept(words: seq<string>, gaps: seq<string>)
    requires |words| >= 1 && |gaps| == |words| - 1 && AllWords(words) && AreGaps(gaps)
    ensures RemoveOthers(Spaced(words, gaps)) == Spaced(words, gaps)
  {
    KeepsAll(words[0]);
    if |words| > 1 {
      var gap, rest := gaps[0], Spaced(words[1..], gaps[1..]);
      SpacedKept(words[1..], gaps[1..]);
      KeepsAll(gap);
      RemovesCharByChar(words[0] + gap, rest, ' ');
      RemovesCharByChar(words[0], gap, ' ');
    }
  }

  lemma RestSpaced(words: seq<string>, gaps: seq<string>)
    requires |words| >= 2 && |gaps| == |words| - 1 && AllWords(words) && AreGaps(gaps)
    ensures AllWords(words[1..]) && AreGaps(gaps[1..])
    ensures AllAlnum(words[0]) && gaps[0] != "" && forall k :: 0 <= k < |gaps[0]| ==> IsGap(gaps[0][k])
  {
  }

  lemma CollapseLast(word: string)
    requires AllAlnum(word)
    ensures CollapsesTo(word, word)
  {
    CollapseWord(word, "", "");
    assert word + "" == word;
  }

  lemma CollapseOne(word: string, gap: string, rest: string, result: string)
    requires AllAlnum(word) && gap != "" && forall k :: 0 <= k < |gap| ==> IsGap(gap[k])
    requires rest != "" && !IsGap(rest[0]) && CollapsesTo(rest, result)
    ensures CollapsesTo(word + gap + rest, word + ['-'] + result)
  {
    CollapseGap(gap, rest, result);
    CollapseWord(word, gap + rest, ['-'] + result);
    assert word + gap + rest == word + (gap + rest);
    assert word + ['-'] + result == word + (['-'] + result);
  }

  lemma {:induction false} CollapseSpaced(words: seq<string>, gaps: seq<string>)
    requires |words| >= 1 && |gaps| == |words| - 1 && AllWords(words) && AreGaps(gaps)
    ensures CollapsesTo(Spaced(words, gaps), Join(words, '-'))
  {
    if |words| == 1 {
      CollapseLast(words[0]);
    } else {
      var moreWords, moreGaps := words[1..], gaps[1..];
      RestSpaced(words, gaps);
      SpacedEnds(moreWords, moreGaps);
      CollapseSpaced(moreWords, moreGaps);
      CollapseOne(words[0], gaps[0], Spaced(moreWords, moreGaps), Join(moreWords, '-'));
    }
  }

  lemma JoinIsSlug(words: seq<string>)
    requires |words| >= 1 && AllWords(words)
    ensures SlugShape(Join(words, '-'))
  {
    assert forall i :: 0 <= i < |words| ==> '-' !in words[i];
    SplitJoin(words, '-');
    ValidSlugShape(Join(words, '-'));
  }

  /** Words of lower-case letters and digits with any gaps between them become those words with single
      hyphens between. */
  lemma KebabCaseJoinsWords(lower: string -> string, words: seq<string>, gaps: seq<string>)
    requires Lowers(lower) && |words| >= 1 && |gaps| == |words| - 1 && AllWords(words) && AreGaps(gaps)
    requires lower(Spaced(words, gaps)) == Spaced(words, gaps)
    ensures ToKebabCase(lower, Spaced(words, gaps)) == Join(words, '-')
  {
    SpacedEnds(words, gaps);
    TrimKeepsUnspaced(Spaced(words, gaps));
    SpacedKept(words, gaps);
    CollapseSpaced(words, gaps);
    JoinIsSlug(words);
    CollapsedHyphens(Join(words, '-'));
    StripKeepsSlugs(Join(words, '-'));
  }

  lemma KebabCaseIdempotent(lower: string -> string, s: string)
    requires Lowers(lower)
    ensures ToKebabCase(lower, ToKebabCase(lower, s)) == ToKebabCase(lower, s)
  {
    KebabCaseIsSlug(lower, s);
    if ToKebabCase(lower, s) == "" {
      assert SlugChars("");
    } else {
      KebabCaseKeepsSlugs(lower, ToKebabCase(lower, s));
    }
  }
}
