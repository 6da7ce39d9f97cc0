/** Case conversions between free text and Pascal, camel, snake and kebab case. */
module NameTransforms {
  import opened Wrappers
  import opened Text

  /** splitWords: the trimmed input with '-' and '_' turned into spaces, split at runs of \s,
      blank pieces dropped. A null input has no words. */
  function SplitWords(input: Option<string>): (parts: seq<string>)
  {
    if input.None? then []
    else
      var trimmed := Trim(input.value);
      if trimmed == [] then []
      else NonBlank(Tokens(Normalized(trimmed)))
  }

  /** The replacements of '-' and '_' by ' ' that splitWords makes before splitting. */
  function Normalized(trimmed: string): (r: string)
    ensures |r| == |trimmed|
    ensures forall j :: 0 <= j < |r| ==> r[j] != '-' && r[j] != '_'
  {
    ReplaceChar(ReplaceChar(trimmed, '-', ' '), '_', ' ')
  }

  predicate NotSeparator(c: char) { !IsSpace(c) && c != '-' && c != '_' }

  predicate SeparatorFree(w: string) {
    w != [] && forall j :: 0 <= j < |w| ==> NotSeparator(w[j])
  }

  /** A word as splitWords yields it: not blank and free of separators. */
  predicate IsWord(w: string) {
    SeparatorFree(w) && !IsBlank(w)
  }

  /** The pieces that are not blank, in order. */
  function NonBlank(tokens: seq<string>): (r: seq<string>)
    ensures forall i :: 0 <= i < |r| ==> !IsBlank(r[i])
  {
    if tokens == [] then []
    else (if IsBlank(tokens[0]) then [] else [tokens[0]]) + NonBlank(tokens[1..])
  }

  lemma {:induction false} NonBlankKeep(tokens: seq<string>)
    requires forall i :: 0 <= i < |tokens| ==> SeparatorFree(tokens[i])
    ensures forall i :: 0 <= i < |NonBlank(tokens)| ==> SeparatorFree(NonBlank(tokens)[i])
  {
    if tokens != [] {
      NonBlankKeep(tokens[1..]);
    }
  }

  lemma {:induction false} NonBlankOfBlank(tokens: seq<string>)
    requires forall i :: 0 <= i < |tokens| ==> IsBlank(tokens[i])
    ensures NonBlank(tokens) == []
  {
    if tokens != [] {
      NonBlankOfBlank(tokens[1..]);
    }
  }

  /** splitWords yields words only. */
  lemma SplitWordsAreWords(input: Option<string>)
    ensures forall i :: 0 <= i < |SplitWords(input)| ==> IsWord(SplitWords(input)[i])
  {
    if input.Some? && Trim(input.value) != [] {
      var n := Normalized(Trim(input.value));
      var tokens := Tokens(n);
      TokensKeep(n, c => c != '-' && c != '_');
      NonBlankKeep(tokens);
    }
  }

  /** Upper-cases the first character and keeps the rest. */
  function Capitalize(part: string): (r: string)
    ensures |r| == |part|
    ensures part != [] ==> r[0] == UpperChar(part[0]) && r[1..] == part[1..]
  {
    if part == [] then part else [UpperChar(part[0])] + part[1..]
  }

  /** What toPascalCase appends for one word. */
  function PascalWord(part: string): string {
    if IsBlank(part) then [] else Capitalize(Lower(part))
  }

  /** The words' Pascal forms, concatenated in order. */
  function PascalOfParts(parts: seq<string>): string {
    if parts == [] then [] else PascalOfParts(parts[..|parts| - 1]) + PascalWord(parts[|parts| - 1])
  }

  /** toPascalCase, as a value. */
  function PascalCase(input: Option<string>): string {
    PascalOfParts(SplitWords(input))
  }

  lemma PascalOfPartsStep(parts: seq<string>, i: nat)
    requires i < |parts|
    ensures PascalOfParts(parts[..i + 1]) == PascalOfParts(parts[..i]) + PascalWord(parts[i])
  {
    assert parts[..i + 1][..i] == parts[..i];
  }

  /** toPascalCase: appends each word, lower-cased and capitalised. */
  method ToPascalCase(input: Option<string>) returns (r: string)
    ensures r == PascalCase(input)
  {
    var parts := SplitWords(input);
    if parts == [] {
      return "";
    }
    r := AppendPascalWords(parts);
  }

  /** The loop of toPascalCase over the words; blank words are skipped. */
  method AppendPascalWords(parts: seq<string>) returns (r: string)
    ensures r == PascalOfParts(parts)
  {
    r := "";
    for i := 0 to |parts|
      invariant r == PascalOfParts(parts[..i])
    {
      PascalOfPartsStep(parts, i);
      if IsBlank(parts[i]) {
        continue;
      }
      r := r + Capitalize(Lower(parts[i]));
    }
    assert parts[..|parts|] == parts;
  }

  /** toCamelCase: the Pascal form with its first character lower-cased. */
  function CamelCase(input: Option<string>): (r: string)
    ensures |r| == |PascalCase(input)|
    ensures r == [] <==> PascalCase(input) == []
    ensures r != [] ==> r[0] == LowerChar(PascalCase(input)[0]) && r[1..] == PascalCase(input)[1..]
  {
    var pascal := PascalCase(input);
    if pascal == [] then [] else [LowerChar(pascal[0])] + pascal[1..]
  }

  /** Characters of a Pascal form are never separators. */
  lemma {:induction false} PascalOfPartsHasNoSeparator(parts: seq<string>)
    requires forall i :: 0 <= i < |parts| ==> SeparatorFree(parts[i])
    ensures forall j :: 0 <= j < |PascalOfParts(parts)| ==> NotSeparator(PascalOfParts(parts)[j])
  {
    if parts != [] {
      var init := parts[..|parts| - 1];
      PascalOfPartsHasNoSeparator(init);
      var w := parts[|parts| - 1];
      assert SeparatorFree(w);
      var p := PascalWord(w);
      forall k | 0 <= k < |p| ensures NotSeparator(p[k]) {
        assert NotSeparator(w[k]);
      }
    }
  }

  /** toPascalCase treats '-', '_' and \s as word breaks and keeps none of them. */
  lemma PascalCaseHasNoSeparator(input: Option<string>)
    ensures forall j :: 0 <= j < |PascalCase(input)| ==> NotSeparator(PascalCase(input)[j])
    ensures forall j :: 0 <= j < |CamelCase(input)| ==> NotSeparator(CamelCase(input)[j])
  {
    SplitWordsAreWords(input);
    PascalOfPartsHasNoSeparator(SplitWords(input));
  }

  /** Null, empty and blank inputs have no Pascal form. */
  lemma PascalCaseOfBlank(input: Option<string>)
    requires IsNullOrBlank(input)
    ensures PascalCase(input) == []
    ensures CamelCase(input) == []
  {
    if input.Some? {
      var s := input.value;
      var trimmed := Trim(s);
      if trimmed != [] {
        var k :| TrimmedAt(s, trimmed, k);
        var n := Normalized(trimmed);
        forall j | 0 <= j < |n| ensures IsWhitespace(n[j]) {
          assert trimmed[j] == s[k + j];
        }
        TokensKeep(n, IsWhitespace);
        NonBlankOfBlank(Tokens(n));
      }
    }
  }

  lemma PascalOfOne(a: string)
    ensures PascalOfParts([a]) == PascalWord(a)
  {
    assert [a][..0] == [];
  }

  /** A single word with nothing to trim splits into itself. */
  lemma SplitWordsOfWord(w: string)
    requires IsWord(w) && !IsTrimmable(w[0]) && !IsTrimmable(w[|w| - 1])
    ensures SplitWords(Some(w)) == [w]
  {
    TrimOfTrimmed(w);
    assert Normalized(w) == w;
    SpanAt(w, 0, IsSpace, 0);
    SpanAt(w, 0, NotSpace, |w|);
    assert w[|w|..] == [];
    assert Tokens(w) == [w[0..|w|]] + Tokens([]);
    assert NonBlank([w]) == [w] + NonBlank([]);
  }

  /** A single word with nothing to trim is capitalised after lower-casing all of it. */
  lemma PascalOfWord(w: string)
    requires IsWord(w) && !IsTrimmable(w[0]) && !IsTrimmable(w[|w| - 1])
    ensures PascalCase(Some(w)) == Capitalize(Lower(w))
  {
    SplitWordsOfWord(w);
    PascalOfOne(w);
  }

  lemma LettersAreWord(w: string)
    requires w != [] && forall j :: 0 <= j < |w| ==> IsLetter(w[j])
    ensures IsWord(w) && !IsTrimmable(w[0]) && !IsTrimmable(w[|w| - 1])
  {
    assert !IsWhitespace(w[0]);
  }

  /** Inner capitals of a single word are lost: only the first letter stays upper-case, so
      "authorName" becomes "Authorname". */
  lemma PascalCaseLosesInnerCapitals(w: string)
    requires w != [] && forall j :: 0 <= j < |w| ==> IsLetter(w[j])
    ensures var r := PascalCase(Some(w));
            |r| == |w| && r[0] == UpperChar(w[0])
            && forall j :: 0 < j < |w| ==> r[j] == LowerChar(w[j])
  {
    LettersAreWord(w);
    PascalOfWord(w);
    var l := Lower(w);
    var r := Capitalize(l);
    assert r[0] == UpperChar(l[0]) && r[1..] == l[1..];
    assert l[0] == LowerChar(w[0]);
    UpperOfLower(w[0]);
    forall j | 0 < j < |w| ensures r[j] == LowerChar(w[j]) {
      assert r[j] == r[1..][j - 1] == l[1..][j - 1] == l[j];
    }
  }

  /** Two letters around one space are two one-letter tokens. */
  lemma TokensOfTwoLetters(n: string)
    requires |n| == 3 && IsLetter(n[0]) && n[1] == ' ' && IsLetter(n[2])
    ensures Tokens(n) == [[n[0]], [n[2]]]
  {
    SpanAt(n, 0, IsSpace, 0);
    SpanAt(n, 0, NotSpace, 1);
    var rest := n[1..];
    SpanAt(rest, 0, IsSpace, 1);
    SpanAt(rest, 1, NotSpace, 2);
    assert rest[2..] == [];
    assert Tokens([]) == [];
    assert Tokens(rest) == [rest[1..2]] + Tokens(rest[2..]);
    assert rest[1..2] == [n[2]];
    assert Tokens(n) == [n[0..1]] + Tokens(rest);
    assert n[0..1] == [n[0]];
  }

  lemma PascalOfTwo(a: string, b: string)
    ensures PascalOfParts([a, b]) == PascalWord(a) + PascalWord(b)
  {
    var p := [a, b];
    assert p[..1] == [a];
    PascalOfPartsStep(p, 1);
    PascalOfOne(a);
  }

  /** Two letters around one space split into two one-letter words. */
  lemma SplitWordsOfTwoLetters(s: string)
    requires |s| == 3 && IsLetter(s[0]) && s[1] == ' ' && IsLetter(s[2])
    ensures SplitWords(Some(s)) == [[s[0]], [s[2]]]
  {
    TrimOfTrimmed(s);
    var n := Normalized(s);
    assert n[0] == s[0] && n[1] == s[1] && n[2] == s[2];
    assert n == s;
    TokensOfTwoLetters(s);
    LetterIsNotBlank(s[0]);
    LetterIsNotBlank(s[2]);
    assert NonBlank([[s[0]], [s[2]]]) == [[s[0]]] + NonBlank([[s[2]]]);
    assert NonBlank([[s[2]]]) == [[s[2]]] + NonBlank([]);
  }

  lemma LetterIsNotBlank(c: char)
    requires IsLetter(c)
    ensures !IsBlank([c])
  {
    assert [c][0] == c && !IsWhitespace(c);
  }

  /** A one-letter word is upper-cased. */
  lemma PascalWordOfLetter(c: char)
    requires IsLetter(c)
    ensures PascalWord([c]) == [UpperChar(c)]
  {
    LetterIsNotBlank(c);
    assert Lower([c])[0] == LowerChar(c);
    UpperOfLower(c);
  }

  /** Two letters around one space give both letters upper-cased: "a b" gives "AB". */
  lemma PascalOfTwoLetters(s: string)
    requires |s| == 3 && IsLetter(s[0]) && s[1] == ' ' && IsLetter(s[2])
    ensures PascalCase(Some(s)) == [UpperChar(s[0]), UpperChar(s[2])]
  {
    SplitWordsOfTwoLetters(s);
    PascalOfTwo([s[0]], [s[2]]);
    PascalWordOfLetter(s[0]);
    PascalWordOfLetter(s[2]);
  }

  /** toPascalCase is not idempotent: "a b" gives "AB", which is one word and gives "Ab". */
  lemma PascalCaseNotIdempotent(s: string)
    requires |s| == 3 && IsLetter(s[0]) && s[1] == ' ' && IsLower(s[2])
    ensures PascalCase(Some(PascalCase(Some(s)))) != PascalCase(Some(s))
  {
    PascalOfTwoLetters(s);
    var w := PascalCase(Some(s));
    assert w[1] == UpperChar(s[2]) && IsUpper(w[1]);
    PascalCaseLosesInnerCapitals(w);
    assert !IsUpper(LowerChar(w[1]));
  }

  /** The loop of toSnakeCase over s, from index i, with the output so far and the previous
      character. */
  function SnakeFrom(s: string, i: nat, out: string, prev: char): string
    requires i <= |s|
    decreases |s| - i
  {
    if i == |s| then out
    else
      var c := s[i];
      if c == '_' then
        SnakeFrom(s, i + 1, if |out| > 0 && out[|out| - 1] != '_' then out + "_" else out, c)
      else
        var out' := if IsUpper(c) && i > 0 && prev != '_' && !IsUpper(prev) then out + "_" else out;
        SnakeFrom(s, i + 1, out' + [LowerChar(c)], c)
  }

  /** Java's trim followed by the replacements of '-' and ' ' by '_'. */
  function SnakeInput(input: string): string {
    ReplaceChar(ReplaceChar(Trim(input), '-', '_'), ' ', '_')
  }

  /** toSnakeCase, as a value. */
  function SnakeCase(input: Option<string>): string {
    if input.None? || Trim(input.value) == [] then []
    else TrimRepeatedOf(SnakeFrom(SnakeInput(input.value), 0, [], 0 as char), '_')
  }

  /** toSnakeCase: lower-cases, inserting '_' at each lower-to-upper boundary. */
  method ToSnakeCase(input: Option<string>) returns (r: string)
    ensures r == SnakeCase(input)
  {
    if input.None? {
      return "";
    }
    var s := Trim(input.value);
    if s == [] {
      return "";
    }
    s := ReplaceChar(ReplaceChar(s, '-', '_'), ' ', '_');
    var out := "";
    var prev := 0 as char;
    for i := 0 to |s|
      invariant SnakeFrom(s, i, out, prev) == SnakeFrom(s, 0, [], 0 as char)
    {
      var c := s[i];
      ghost var before := SnakeFrom(s, i, out, prev);
      if c == '_' {
        if |out| > 0 && out[|out| - 1] != '_' {
          out := out + "_";
        }
      } else {
        if IsUpper(c) && i > 0 && prev != '_' && !IsUpper(prev) {
          out := out + "_";
        }
        out := out + [LowerChar(c)];
      }
      prev := c;
      assert SnakeFrom(s, i + 1, out, prev) == before;
    }
    r := TrimRepeated(out, '_');
  }

  /** toKebabCase: the snake form with '_' replaced by '-'. */
  function KebabCase(input: Option<string>): (r: string)
    ensures |r| == |SnakeCase(input)|
  {
    ReplaceChar(SnakeCase(input), '_', '-')
  }

  /** Every character the snake loop emits is '_' or a character of s lower-cased. */
  lemma {:induction false} SnakeFromChars(s: string, i: nat, out: string, prev: char)
    requires i <= |s|
    requires forall c :: c in out ==> c == '_' || (!IsUpper(c) && c != '-' && c != ' ')
    requires forall c :: c in s ==> c != '-' && c != ' '
    ensures forall c :: c in SnakeFrom(s, i, out, prev) ==> c == '_' || (!IsUpper(c) && c != '-' && c != ' ')
    decreases |s| - i
  {
    if i < |s| {
      var c := s[i];
      assert c in s;
      if c == '_' {
        SnakeFromChars(s, i + 1, if |out| > 0 && out[|out| - 1] != '_' then out + "_" else out, c);
      } else {
        var out' := if IsUpper(c) && i > 0 && prev != '_' && !IsUpper(prev) then out + "_" else out;
        SnakeFromChars(s, i + 1, out' + [LowerChar(c)], c);
      }
    }
  }

  // ---- trimRepeated ----

  /** The repeated-separator collapse: replace every pair by one separator until none is left. */
  function CollapseOf(s: string, sep: char): (r: string)
    decreases |s|
    ensures !Contains(r, [sep, sep])
  {
    if Contains(s, [sep, sep]) then
      ReplaceShrinks(s, [sep, sep], [sep]);
      CollapseOf(ReplaceAll(s, [sep, sep], [sep]), sep)
    else s
  }

  /** Replacing a non-empty pattern by a shorter one never lengthens, and shortens on a match. */
  lemma {:induction false} ReplaceShrinks(s: string, t: string, u: string)
    requires |u| < |t|
    ensures |ReplaceAll(s, t, u)| <= |s|
    ensures Contains(s, t) ==> |ReplaceAll(s, t, u)| < |s|
    decreases |s|
  {
    if |s| >= |t| {
      if s[..|t|] == t {
        ReplaceShrinks(s[|t|..], t, u);
      } else {
        ReplaceShrinks(s[1..], t, u);
        if Contains(s, t) {
          var j := IndexOf(s, t, 0);
          assert j >= 1;
          assert OccursAt(s[1..], t, j - 1) by {
            assert s[1..][j - 1..j - 1 + |t|] == s[j..j + |t|];
          }
          ContainsIff(s[1..], t);
        }
      }
    } else {
      assert !Contains(s, t);
    }
  }

  /** trimRepeated, as a value: strip leading and trailing separators, then collapse runs. */
  function TrimRepeatedOf(input: string, sep: char): string {
    CollapseOf(StripTrailing(StripLeading(input, sep), sep), sep)
  }

  function StripLeading(s: string, sep: char): (r: string)
    ensures |r| <= |s|
    ensures |r| < |s| ==> r == s[|s| - |r|..]
    ensures |r| == |s| ==> r == s
    ensures r == [] || r[0] != sep
  {
    if |s| > 0 && s[0] == sep then StripLeading(s[1..], sep) else s
  }

  function StripTrailing(s: string, sep: char): (r: string)
    ensures |r| <= |s| && r == s[..|r|]
    ensures r == [] || r[|r| - 1] != sep
  {
    if |s| > 0 && s[|s| - 1] == sep then StripTrailing(s[..|s| - 1], sep) else s
  }

  /** trimRepeated: three while loops over a shrinking string. */
  method TrimRepeated(input: string, sep: char) returns (r: string)
    ensures r == TrimRepeatedOf(input, sep)
  {
    var s := input;
    // startsWith and endsWith of a one-character separator
    while |s| > 0 && s[0] == sep
      invariant StripLeading(s, sep) == StripLeading(input, sep)
      decreases |s|
    {
      s := s[1..];
    }
    ghost var lead := s;
    while |s| > 0 && s[|s| - 1] == sep
      invariant StripTrailing(s, sep) == StripTrailing(lead, sep)
      decreases |s|
    {
      s := s[..|s| - 1];
    }
    while Contains(s, [sep, sep])
      invariant CollapseOf(s, sep) == TrimRepeatedOf(input, sep)
      decreases |s|
    {
      ReplaceShrinks(s, [sep, sep], [sep]);
      s := ReplaceAll(s, [sep, sep], [sep]);
    }
    r := s;
  }

  /** Replacing keeps the first character when no match starts there. */
  lemma {:induction false} ReplaceKeepsEnds(s: string, sep: char)
    requires s != [] && s[0] != sep && s[|s| - 1] != sep
    ensures var r := ReplaceAll(s, [sep, sep], [sep]);
              r != [] && r[0] == s[0] && r[|r| - 1] == s[|s| - 1]
    decreases |s|
  {
    var t := [sep, sep];
    if |s| >= 2 {
      assert s[..2] != t;
      var rest := s[1..];
      if rest[0] == sep {
        // rest starts with sep: peel off matches until a non-separator start appears
        ReplaceLastKept(rest, sep);
      } else {
        ReplaceKeepsEnds(rest, sep);
      }
    }
  }

  /** The last character survives replacement when it is not a separator. */
  lemma {:induction false} ReplaceLastKept(s: string, sep: char)
    requires s != [] && s[|s| - 1] != sep
    ensures var r := ReplaceAll(s, [sep, sep], [sep]);
              r != [] && r[|r| - 1] == s[|s| - 1]
    decreases |s|
  {
    var t := [sep, sep];
    if |s| >= 2 {
      if s[..2] == t {
        ReplaceLastKept(s[2..], sep);
      } else {
        ReplaceLastKept(s[1..], sep);
      }
    }
  }

  /** Replacing never introduces a character. */
  lemma {:induction false} ReplaceChars(s: string, sep: char)
    ensures forall c :: c in ReplaceAll(s, [sep, sep], [sep]) ==> c in s
    decreases |s|
  {
    if |s| >= 2 {
      if s[..2] == [sep, sep] {
        ReplaceChars(s[2..], sep);
        assert s[0] == sep;
      } else {
        ReplaceChars(s[1..], sep);
      }
    }
  }

  /** The collapse keeps the ends and introduces no character. */
  lemma {:induction false} CollapseKeepsEnds(s: string, sep: char)
    requires s == [] || (s[0] != sep && s[|s| - 1] != sep)
    ensures var r := CollapseOf(s, sep);
              (r == [] || (r[0] != sep && r[|r| - 1] != sep)) && forall c :: c in r ==> c in s
    decreases |s|
  {
    if Contains(s, [sep, sep]) {
      ReplaceShrinks(s, [sep, sep], [sep]);
      ReplaceKeepsEnds(s, sep);
      ReplaceChars(s, sep);
      CollapseKeepsEnds(ReplaceAll(s, [sep, sep], [sep]), sep);
    }
  }

  /** trimRepeated never leaves a separator at either end nor two in a row, and adds nothing. */
  lemma TrimRepeatedShape(input: string, sep: char)
    ensures var r := TrimRepeatedOf(input, sep);
              && (r == [] || (r[0] != sep && r[|r| - 1] != sep))
              && !Contains(r, [sep, sep])
              && forall c :: c in r ==> c in input
  {
    var a := StripLeading(input, sep);
    var b := StripTrailing(a, sep);
    assert b == [] || b[0] == a[0];
    CollapseKeepsEnds(b, sep);
    forall c | c in b ensures c in input {
      var j :| 0 <= j < |b| && b[j] == c;
      assert a[j] == c;
      assert input[|input| - |a| + j] == c;
    }
  }

  /** toSnakeCase never yields a leading, trailing or doubled '_', nor an upper-case letter, '-'
      or ' '. */
  lemma SnakeCaseShape(input: Option<string>)
    ensures var r := SnakeCase(input);
              && (r == [] || (r[0] != '_' && r[|r| - 1] != '_'))
              && !Contains(r, "__")
              && forall c :: c in r ==> !IsUpper(c) && c != '-' && c != ' '
  {
    if input.Some? && Trim(input.value) != [] {
      var s := SnakeInput(input.value);
      forall c | c in s ensures c != '-' && c != ' ' {
        var j :| 0 <= j < |s| && s[j] == c;
      }
      SnakeFromChars(s, 0, [], 0 as char);
      TrimRepeatedShape(SnakeFrom(s, 0, [], 0 as char), '_');
    }
  }

  /** The kebab form has no '_' and no upper-case letter, and its '-' sit where the snake form has
      '_'. */
  lemma KebabCaseShape(input: Option<string>)
    ensures var r := KebabCase(input);
              && (forall c :: c in r ==> c != '_' && !IsUpper(c) && c != ' ')
              && (r == [] || (r[0] != '-' && r[|r| - 1] != '-'))
  {
    SnakeCaseShape(input);
    var s := SnakeCase(input);
    var r := KebabCase(input);
    forall c | c in r ensures c != '_' && !IsUpper(c) && c != ' ' {
      var j :| 0 <= j < |r| && r[j] == c;
      assert s[j] in s;
    }
    if r != [] {
      assert s[0] in s && s[|s| - 1] in s;
    }
  }

  /** A string without separators at its ends or in pairs is left alone by trimRepeated. */
  lemma TrimRepeatedOfClean(s: string, sep: char)
    requires s != [] && s[0] != sep && s[|s| - 1] != sep
    requires forall k :: 0 <= k < |s| - 1 ==> s[k] != sep || s[k + 1] != sep
    ensures TrimRepeatedOf(s, sep) == s
  {
    assert StripTrailing(StripLeading(s, sep), sep) == s;
    forall j ensures !OccursAt(s, [sep, sep], j) {
      if 0 <= j && j + 2 <= |s| {
        assert s[j..j + 2][0] == s[j] && s[j..j + 2][1] == s[j + 1];
      }
    }
    ContainsIff(s, [sep, sep]);
  }

  /** A letter-only input without '-' or ' ' reaches the snake loop unchanged. */
  lemma SnakeInputOfLetters(s: string)
    requires s != [] && forall k :: 0 <= k < |s| ==> IsLetter(s[k])
    ensures SnakeInput(s) == s
  {
    TrimOfTrimmed(s);
  }

  /** A run of lower-case letters is copied as it is, with no '_' before any of it. */
  lemma {:induction false} SnakeFromLowerRun(s: string, i: nat, j: nat, out: string, prev: char)
    requires i < j <= |s|
    requires forall k :: i <= k < j ==> IsLower(s[k])
    ensures SnakeFrom(s, i, out, prev) == SnakeFrom(s, j, out + s[i..j], s[j - 1])
    decreases j - i
  {
    var c := s[i];
    assert IsLower(c) && LowerChar(c) == c;
    if i + 1 < j {
      SnakeFromLowerRun(s, i + 1, j, out + [c], c);
      assert out + [c] + s[i + 1..j] == out + s[i..j];
    } else {
      assert s[i..j] == [c];
    }
  }

  /** A run of capitals at the start, or after a capital, is lower-cased with no '_' in it. */
  lemma {:induction false} SnakeFromUpperRun(s: string, i: nat, j: nat, out: string, prev: char)
    requires i < j <= |s|
    requires forall k :: i <= k < j ==> IsUpper(s[k])
    requires i == 0 || IsUpper(prev)
    ensures SnakeFrom(s, i, out, prev) == SnakeFrom(s, j, out + Lower(s[i..j]), s[j - 1])
    decreases j - i
  {
    var c := s[i];
    if i + 1 < j {
      SnakeFromUpperRun(s, i + 1, j, out + [LowerChar(c)], c);
      LowerAppend([c], s[i + 1..j]);
      assert [c] + s[i + 1..j] == s[i..j];
      assert out + [LowerChar(c)] + Lower(s[i + 1..j]) == out + Lower(s[i..j]);
    } else {
      assert s[i..j] == [c];
      assert Lower([c]) == [LowerChar(c)];
    }
  }

  /** A string without separators is left alone by trimRepeated. */
  lemma TrimRepeatedOfSeparatorFree(s: string, sep: char)
    requires s != [] && forall k :: 0 <= k < |s| ==> s[k] != sep
    ensures TrimRepeatedOf(s, sep) == s
  {
    TrimRepeatedOfClean(s, sep);
  }

  /** The snake loop stops with its output at the end of the input. */
  lemma SnakeFromEnd(s: string, out: string, prev: char)
    ensures SnakeFrom(s, |s|, out, prev) == out
  {}

  /** A capital after a letter that is neither '_' nor a capital gets a '_' before it. */
  lemma SnakeFromHump(s: string, i: nat, out: string, prev: char)
    requires 0 < i < |s| && IsUpper(s[i]) && prev != '_' && !IsUpper(prev)
    ensures SnakeFrom(s, i, out, prev) == SnakeFrom(s, i + 1, out + "_" + [LowerChar(s[i])], s[i])
  {}

  /** A lower-case prefix is copied as it is. */
  lemma SnakeFromLowerPrefix(s: string, n: nat)
    requires 0 < n <= |s|
    requires forall k :: 0 <= k < n ==> IsLower(s[k])
    ensures SnakeFrom(s, 0, [], 0 as char) == SnakeFrom(s, n, s[..n], s[n - 1])
  {
    SnakeFromLowerRun(s, 0, n, [], 0 as char);
    assert [] + s[0..n] == s[..n];
  }

  /** A lower-case suffix is copied as it is, and the loop ends. */
  lemma SnakeFromLowerSuffix(s: string, i: nat, out: string, prev: char)
    requires i < |s|
    requires forall k :: i <= k < |s| ==> IsLower(s[k])
    ensures SnakeFrom(s, i, out, prev) == out + s[i..]
  {
    SnakeFromLowerRun(s, i, |s|, out, prev);
    assert s[i..|s|] == s[i..];
    SnakeFromEnd(s, out + s[i..], s[|s| - 1]);
  }

  /** The snake loop over lower-case letters, one capital and lower-case letters. */
  lemma SnakeFromOfCamel(s: string, n: nat)
    requires 0 < n < |s| - 1 && IsUpper(s[n])
    requires forall k :: 0 <= k < n ==> IsLower(s[k])
    requires forall k :: n < k < |s| ==> IsLower(s[k])
    ensures SnakeFrom(s, 0, [], 0 as char) == s[..n] + "_" + [LowerChar(s[n])] + s[n + 1..]
  {
    SnakeFromLowerPrefix(s, n);
    var out := s[..n] + "_" + [LowerChar(s[n])];
    SnakeFromHump(s, n, s[..n], s[n - 1]);
    SnakeFromLowerSuffix(s, n + 1, out, s[n]);
  }

  /** The snake form of a camel hump has no "__" and no '_' at its ends. */
  lemma CamelSnakeIsClean(a: string, c: char, b: string)
    requires a != [] && forall k :: 0 <= k < |a| ==> IsLower(a[k])
    requires IsUpper(c)
    requires b != [] && forall k :: 0 <= k < |b| ==> IsLower(b[k])
    ensures var r := a + "_" + [LowerChar(c)] + b;
              r[0] != '_' && r[|r| - 1] != '_'
              && forall k :: 0 <= k < |r| - 1 ==> r[k] != '_' || r[k + 1] != '_'
  {
    var r := a + "_" + [LowerChar(c)] + b;
    var n := |a|;
    assert r[0] == a[0] && r[|r| - 1] == b[|b| - 1];
    forall k | 0 <= k < |r| - 1 ensures r[k] != '_' || r[k + 1] != '_' {
      if k < n {
        assert r[k] == a[k];
      } else if k == n {
        assert r[k + 1] == LowerChar(c);
      } else if k == n + 1 {
        assert r[k] == LowerChar(c);
      } else {
        assert r[k] == b[k - n - 2];
      }
    }
  }

  /** The input of toSnakeCase reaches its loop unchanged when it is all letters. */
  /** toSnakeCase of an input with nothing to trim is its loop followed by trimRepeated. */
  lemma SnakeCaseUnfold(s: string)
    requires Trim(s) != []
    ensures SnakeCase(Some(s)) == TrimRepeatedOf(SnakeFrom(SnakeInput(s), 0, [], 0 as char), '_')
  {}

  lemma SnakeCaseOfLetters(s: string)
    requires s != [] && forall k :: 0 <= k < |s| ==> IsLetter(s[k])
    ensures SnakeCase(Some(s)) == TrimRepeatedOf(SnakeFrom(s, 0, [], 0 as char), '_')
  {
    SnakeInputOfLetters(s);
    TrimOfTrimmed(s);
    SnakeCaseUnfold(s);
  }

  /** A lower-to-upper boundary gets a '_': "authorName" is "author" + "N" + "ame" and becomes
      "author_name". */
  lemma SnakeCaseSplitsCamelHumps(a: string, c: char, b: string)
    requires a != [] && forall k :: 0 <= k < |a| ==> IsLower(a[k])
    requires IsUpper(c)
    requires b != [] && forall k :: 0 <= k < |b| ==> IsLower(b[k])
    ensures SnakeCase(Some(a + [c] + b)) == a + "_" + [LowerChar(c)] + b
  {
    var s := a + [c] + b;
    forall k | 0 <= k < |s| ensures IsLetter(s[k]) && (k != |a| ==> IsLower(s[k])) {
      if k < |a| {
        assert s[k] == a[k];
      } else if k > |a| {
        assert s[k] == b[k - |a| - 1];
      }
    }
    SnakeCaseOfLetters(s);
    assert s[..|a|] == a && s[|a|] == c && s[|a| + 1..] == b;
    SnakeFromOfCamel(s, |a|);
    CamelSnakeIsClean(a, c, b);
    TrimRepeatedOfClean(a + "_" + [LowerChar(c)] + b, '_');
  }

  /** A prefix of capitals is lower-cased with no '_' in it. */
  lemma SnakeFromUpperPrefix(s: string, n: nat)
    requires 0 < n <= |s|
    requires forall k :: 0 <= k < n ==> IsUpper(s[k])
    ensures SnakeFrom(s, 0, [], 0 as char) == SnakeFrom(s, n, Lower(s[..n]), s[n - 1])
  {
    SnakeFromUpperRun(s, 0, n, [], 0 as char);
    assert [] + Lower(s[0..n]) == Lower(s[..n]);
  }

  /** The snake loop over capitals followed by lower-case letters. */
  lemma SnakeFromOfAcronym(s: string, n: nat)
    requires 0 < n < |s|
    requires forall k :: 0 <= k < n ==> IsUpper(s[k])
    requires forall k :: n <= k < |s| ==> IsLower(s[k])
    ensures SnakeFrom(s, 0, [], 0 as char) == Lower(s[..n]) + s[n..]
  {
    SnakeFromUpperPrefix(s, n);
    SnakeFromLowerSuffix(s, n, Lower(s[..n]), s[n - 1]);
  }

  /** No '_' goes between consecutive capitals or after the last of them: "HTTPServer" is
      "HTTPS" + "erver" and becomes "httpserver". */
  lemma SnakeCaseKeepsAcronymsTogether(u: string, b: string)
    requires u != [] && forall k :: 0 <= k < |u| ==> IsUpper(u[k])
    requires b != [] && forall k :: 0 <= k < |b| ==> IsLower(b[k])
    ensures SnakeCase(Some(u + b)) == Lower(u) + b
  {
    var s := u + b;
    var n := |u|;
    forall k | 0 <= k < |s|
      ensures IsLetter(s[k]) && (k < n ==> IsUpper(s[k])) && (n <= k ==> IsLower(s[k]))
    {
      if k < n {
        assert s[k] == u[k];
      } else {
        assert s[k] == b[k - n];
      }
    }
    SnakeCaseOfLetters(s);
    assert s[..n] == u && s[n..] == b;
    SnakeFromOfAcronym(s, n);
    AcronymSnakeIsSeparatorFree(u, b);
    TrimRepeatedOfSeparatorFree(Lower(u) + b, '_');
  }

  lemma AcronymSnakeIsSeparatorFree(u: string, b: string)
    requires forall k :: 0 <= k < |u| ==> IsUpper(u[k])
    requires forall k :: 0 <= k < |b| ==> IsLower(b[k])
    requires b != []
    ensures var r := Lower(u) + b;
            r != [] && forall k :: 0 <= k < |r| ==> r[k] != '_'
  {
    var r := Lower(u) + b;
    forall k | 0 <= k < |r| ensures r[k] != '_' {
      if k < |u| {
        assert r[k] == Lower(u)[k] == LowerChar(u[k]);
      } else {
        assert r[k] == b[k - |u|];
      }
    }
  }
}
