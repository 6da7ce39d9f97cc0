/** Cuts the user's request out of a prompt that frames it with a "USER REQUEST" header and banner
    lines; a prompt without that header is passed through trimmed. */
module SpecInputExtractor {
  import opened Wrappers
  import opened Text

  /** The banner line, twenty-four '=' characters, that closes the request section. */
  const Banner: string := "========================"
  const Header: string := "user request"
  const FinalInstruction: string := "final instruction"
  /** The template placeholder that stands for a request nobody filled in. */
  const Placeholder: string := "{{user_request}}"

  /** The end of the line that starts at i: the next '\n' at or after i, or the end of s. */
  function LineEnd(s: string, i: nat): (e: nat)
    requires i <= |s|
    ensures i <= e <= |s|
    ensures e == |s| || s[e] == '\n'
    ensures forall j :: i <= j < e ==> s[j] != '\n'
  {
    var n := IndexOf(s, "\n", i);
    assert forall j :: i <= j < |s| && s[j] == '\n' ==> OccursAt(s, "\n", j) by {
      forall j | i <= j < |s| && s[j] == '\n' ensures OccursAt(s, "\n", j) {
        assert s[j..j + 1] == [s[j]];
      }
    }
    if n < 0 then |s| else n
  }

  /** The line starting at i is kept: it is not empty after trimming and does not start with '='. */
  predicate IsRequestLine(s: string, i: nat)
    requires i <= |s|
  {
    var line := Trim(s[i..LineEnd(s, i)]);
    line != [] && line[0] != '='
  }

  /** Where the line after the one at i starts, or the end of s after the last line. */
  function NextLine(s: string, i: nat): (k: nat)
    requires i < |s|
    ensures i < k <= |s|
  {
    var e := LineEnd(s, i);
    if e + 1 < |s| then e + 1 else |s|
  }

  /** The position skipDelimitersAndBlankLines returns: the start of the first kept line at or
      after i, or the end of s when there is none; a start past the end is returned as it is. */
  function SkipFrom(s: string, i: nat): (r: nat)
    decreases |s| - i
    ensures i <= r
    ensures r <= |s| ==> r == |s| || IsRequestLine(s, r)
    ensures r > |s| ==> r == i
  {
    if i >= |s| || IsRequestLine(s, i) then i else SkipFrom(s, NextLine(s, i))
  }

  /** A position where a line starts. */
  predicate LineStart(s: string, i: int) {
    i == 0 || (0 < i <= |s| && s[i - 1] == '\n')
  }

  /** Every line skipped on the way is blank or starts with '='. */
  lemma {:induction false} SkipFromSkipsOnlyDelimiters(s: string, i: nat, j: nat)
    requires i <= j < SkipFrom(s, i) && j <= |s|
    requires j == i || LineStart(s, j)
    ensures !IsRequestLine(s, j)
    decreases |s| - i
  {
    if j > i {
      var next := NextLine(s, i);
      // j - 1 holds a line break, and the line at i has none before its end
      assert s[j - 1] == '\n';
      assert j >= next;
      SkipFromSkipsOnlyDelimiters(s, next, j);
    }
  }

  /** The skip ends at the end of the input or at the start of a line. */
  lemma {:induction false} SkipFromEndsAtLineStart(s: string, i: nat)
    requires i <= |s| && LineStart(s, i)
    ensures SkipFrom(s, i) == |s| || LineStart(s, SkipFrom(s, i))
    decreases |s| - i
  {
    if i < |s| && !IsRequestLine(s, i) {
      var next := NextLine(s, i);
      if next < |s| {
        SkipFromEndsAtLineStart(s, next);
      }
    }
  }

  /** skipDelimitersAndBlankLines: advances line by line past blank lines and lines starting with
      '='. */
  method SkipDelimitersAndBlankLines(input: string, index: int) returns (i: int)
    ensures i == SkipFrom(input, if index < 0 then 0 else index)
  {
    i := if index < 0 then 0 else index;
    ghost var start: nat := i;
    while i < |input|
      invariant i >= 0
      invariant SkipFrom(input, i) == SkipFrom(input, start)
      decreases |input| - i
    {
      ghost var lineStart := i;
      var lineEnd := IndexOf(input, "\n", i);
      if lineEnd < 0 {
        lineEnd := |input|;
      }
      assert lineEnd == LineEnd(input, i);
      var line := Trim(input[i..lineEnd]);
      if line != [] && line[0] != '=' {
        assert IsRequestLine(input, i);
        return;
      }
      assert !IsRequestLine(input, i);
      i := if |input| < lineEnd + 1 then |input| else lineEnd + 1;
      assert i == NextLine(input, lineStart);
    }
  }

  /** indexOfNextDelimiter: the first banner or "final instruction" at or after from, or -1. */
  function IndexOfNextDelimiter(lower: string, from: nat): (r: int)
    ensures r == -1 || (from <= r && (OccursAt(lower, Banner, r) || OccursAt(lower, FinalInstruction, r)))
    ensures forall j :: from <= j && (r == -1 || j < r) ==>
              !OccursAt(lower, Banner, j) && !OccursAt(lower, FinalInstruction, j)
  {
    var nextSeparator := IndexOf(lower, Banner, from);
    var nextFinalInstruction := IndexOf(lower, FinalInstruction, from);
    if nextSeparator < 0 then nextFinalInstruction
    else if nextFinalInstruction < 0 then nextSeparator
    else if nextSeparator < nextFinalInstruction then nextSeparator
    else nextFinalInstruction
  }

  /** The trimmed section, or "" when it is blank or the unfilled placeholder. */
  function Cleaned(section: string): (r: string)
    ensures r == [] || (r == Trim(section) && Trim(r) == r && !IsBlank(r) && !EqualsIgnoreCase(r, Placeholder))
  {
    var extracted := Trim(section);
    if extracted == "{{USER_REQUEST}}" || EqualsIgnoreCase(extracted, Placeholder) || IsBlank(extracted) then []
    else
      TrimIdempotent(section);
      extracted
  }

  /** A non-empty trim of s[a..b] occurs in s at or after a. */
  lemma TrimOccurs(s: string, a: nat, b: nat)
    requires a <= b <= |s| && Trim(s[a..b]) != []
    ensures exists k :: k >= a && OccursAt(s, Trim(s[a..b]), k)
  {
    var u := s[a..b];
    var t := Trim(u);
    var k :| TrimmedAt(u, t, k);
    forall i | 0 <= i < |t| ensures s[a + k + i] == t[i] {
      assert t[i] == u[k + i];
    }
    assert s[a + k..a + k + |t|] == t;
    assert OccursAt(s, t, a + k);
  }

  /** The section of the trimmed input after the header line: from the first kept line to the next
      delimiter, trimmed, or "" when that is blank or the unfilled placeholder. */
  function Section(input: string, lineBreak: nat): (r: string)
    requires lineBreak < |input|
    ensures r == [] || (Trim(r) == r && !IsBlank(r) && !EqualsIgnoreCase(r, Placeholder))
    ensures r != [] ==> exists k :: k >= lineBreak + 1 && OccursAt(input, r, k)
  {
    var start := SkipFrom(input, lineBreak + 1);
    var end := IndexOfNextDelimiter(Lower(input), start);
    var stop := if end < 0 then |input| else end;
    var r := Cleaned(input[start..stop]);
    if r == [] then r
    else
      TrimOccurs(input, start, stop);
      r
  }

  /** extractUserRequestOrWholeInput: the section after the first "user request" (in any case),
      when a line break follows it, and otherwise the whole trimmed input. */
  function ExtractUserRequest(rawInput: Option<string>): (r: string)
    ensures rawInput.None? || Trim(rawInput.value) == [] ==> r == []
    ensures rawInput.Some? && !Contains(Lower(Trim(rawInput.value)), Header) ==> r == Trim(rawInput.value)
    ensures r == [] || Trim(r) == r
    ensures r != [] ==> exists k :: OccursAt(Trim(rawInput.value), r, k)
  {
    if rawInput.None? then []
    else
      var input := Trim(rawInput.value);
      TrimIdempotent(rawInput.value);
      if input == [] then []
      else
        var lower := Lower(input);
        var userRequestIndex := IndexOf(lower, Header, 0);
        if userRequestIndex < 0 then
          assert OccursAt(input, input, 0);
          input
        else
          var lineBreak := IndexOf(input, "\n", userRequestIndex);
          if lineBreak < 0 then
            assert OccursAt(input, input, 0);
            input
          else Section(input, lineBreak)
  }

  /** Without a line break after the first "user request" (or without the header at all), the
      trimmed input is returned as it is. */
  lemma NoBreakAfterHeader(rawInput: string)
    requires forall j :: j >= IndexOf(Lower(Trim(rawInput)), Header, 0) ==> !OccursAt(Trim(rawInput), "\n", j)
    ensures ExtractUserRequest(Some(rawInput)) == Trim(rawInput)
  {
    var input := Trim(rawInput);
    var userRequestIndex := IndexOf(Lower(input), Header, 0);
    if input != [] && userRequestIndex >= 0 {
      assert IndexOf(input, "\n", userRequestIndex) == -1;
    }
  }

  /** The opening of a framed prompt: a banner, the header line and a banner, each ended by a line
      break. */
  const Opening: string := Banner + "\nUSER REQUEST\n" + Banner + "\n"

  /** A prompt framed the way the generator's prompt template frames a request: the opening, the
      request line, a banner, and whatever follows. */
  function Framed(request: string, rest: string): string {
    Opening + request + "\n" + Banner + rest
  }

  lemma BannerChars()
    ensures |Banner| == 24 && forall j :: 0 <= j < 24 ==> Banner[j] == '='
  {
  }

  lemma OpeningChars()
    ensures |Opening| == 63
    ensures forall j :: 0 <= j < 24 ==> Opening[j] == '='
    ensures Opening[24] == '\n' && Opening[25..37] == "USER REQUEST" && Opening[37] == '\n'
    ensures forall j :: 38 <= j < 62 ==> Opening[j] == '='
    ensures Opening[62] == '\n'
  {
  }

  /** p does not occur at j when the character there differs from p's first. */
  lemma NotAtByFirst(s: string, p: string, j: nat)
    requires p != [] && j < |s| && s[j] != p[0]
    ensures !OccursAt(s, p, j)
  {
    if j + |p| <= |s| {
      assert s[j..j + |p|][0] == s[j];
    }
  }

  /** A pattern without line breaks that does not occur in the request does not occur in the
      request line of the lower-cased prompt either, nor across its line break. */
  lemma {:induction false} NoDelimiterInRequestLine(lower: string, request: string, from: nat, p: string)
    requires from + |request| < |lower| && lower[from..from + |request|] == request
    requires lower[from + |request|] == '\n' && '\n' !in p && p != []
    requires !Contains(request, p)
    ensures forall j :: from <= j <= from + |request| ==> !OccursAt(lower, p, j)
  {
    var e := from + |request|;
    ContainsIff(request, p);
    forall j | from <= j <= e ensures !OccursAt(lower, p, j) {
      if j + |p| <= e {
        InfixOfInfix(lower, request, from, j, |p|);
        assert !OccursAt(request, p, j - from);
      } else if j + |p| <= |lower| {
        assert lower[j..j + |p|][e - j] == '\n';
      }
    }
  }

  /** An infix of an infix. */
  lemma InfixOfInfix(s: string, t: string, from: nat, j: nat, len: nat)
    requires from + |t| <= |s| && s[from..from + |t|] == t
    requires from <= j && j + len <= from + |t|
    ensures s[j..j + len] == t[j - from..j - from + len]
  {
    var a := s[j..j + len];
    var b := t[j - from..j - from + len];
    forall i | 0 <= i < len ensures a[i] == b[i] {
      assert s[j + i] == s[from..from + |t|][j - from + i];
    }
  }

  /** Trimming a request line with its line break gives the request line. */
  lemma TrimWithBreak(request: string)
    requires request != [] && !IsTrimmable(request[0]) && !IsTrimmable(request[|request| - 1])
    ensures Trim(request + "\n") == request
  {
    var s := request + "\n";
    assert TrimStart(s) == s;
    assert s[..|s| - 1] == request;
    assert TrimEnd(s) == TrimEnd(request);
  }

  /** The trimmed prompt still starts with the frame around the request. */
  predicate FrameAt(input: string, request: string) {
    var n := |request|;
    && |input| >= 88 + n
    && input[..63] == Opening
    && input[63..63 + n] == request
    && input[63 + n] == '\n'
    && input[64 + n..88 + n] == Banner
  }

  lemma FrameOf(request: string, t: string)
    ensures FrameAt(Opening + request + "\n" + Banner + t, request)
  {
    OpeningChars();
    var y := "\n" + Banner + t;
    var input := Opening + request + y;
    assert Opening + request + "\n" + Banner + t == input;
    assert input[..63] == Opening;
    assert input[63..63 + |request|] == request;
    assert input[64 + |request|..88 + |request|] == y[1..25];
  }

  /** The header starts at 25 in the lower-cased prompt. */
  lemma HeaderInFrame(input: string, request: string)
    requires FrameAt(input, request)
    ensures IndexOf(Lower(input), Header, 0) == 25
  {
    OpeningChars();
    var lower := Lower(input);
    assert input[25..37] == Opening[25..37];
    assert lower[25..37] == Lower(input[25..37]);
    forall j | 0 <= j < 25 ensures !OccursAt(lower, Header, j) {
      assert input[j] == Opening[j];
      NotAtByFirst(lower, Header, j);
    }
    IndexOfAt(lower, Header, 0, 25);
  }

  /** The header line ends at 37. */
  lemma BreakInFrame(input: string, request: string)
    requires FrameAt(input, request)
    ensures IndexOf(input, "\n", 25) == 37
  {
    OpeningChars();
    assert input[37] == Opening[37];
    assert input[37..38] == "\n";
    forall j | 25 <= j < 37 ensures !OccursAt(input, "\n", j) {
      assert input[j] == Opening[25..37][j - 25];
      NotAtByFirst(input, "\n", j);
    }
    IndexOfAt(input, "\n", 25, 37);
  }

  /** The banner line after the header is skipped and the request line at 63 is kept. */
  lemma SkipInFrame(input: string, request: string)
    requires FrameAt(input, request)
    requires request != [] && !IsTrimmable(request[0]) && !IsTrimmable(request[|request| - 1])
    requires request[0] != '=' && '\n' !in request
    ensures SkipFrom(input, 38) == 63
  {
    OpeningChars();
    var n := |request|;
    forall j | 38 <= j < 62 ensures input[j] == '=' {
      assert input[j] == Opening[j];
    }
    assert input[62] == Opening[62];
    assert LineEnd(input, 38) == 62;
    assert !IsTrimmable(input[38..62][0]) && !IsTrimmable(input[38..62][23]);
    TrimOfTrimmed(input[38..62]);
    assert !IsRequestLine(input, 38);
    assert NextLine(input, 38) == 63;
    forall j | 63 <= j < 63 + n ensures input[j] != '\n' {
      assert input[j] == request[j - 63];
    }
    assert LineEnd(input, 63) == 63 + n;
    TrimOfTrimmed(request);
    assert IsRequestLine(input, 63);
  }

  /** In a text where a line without delimiters is followed by a banner line, that banner is the
      first delimiter from the start of the line. */
  lemma DelimiterAfterLine(lower: string, line: string, from: nat)
    requires from + |line| + 25 <= |lower|
    requires lower[from..from + |line|] == line && lower[from + |line|] == '\n'
    requires lower[from + |line| + 1..from + |line| + 25] == Banner
    requires !Contains(line, Banner) && !Contains(line, FinalInstruction)
    ensures IndexOfNextDelimiter(lower, from) == from + |line| + 1
  {
    NoDelimiterInRequestLine(lower, line, from, Banner);
    NoDelimiterInRequestLine(lower, line, from, FinalInstruction);
    assert OccursAt(lower, Banner, from + |line| + 1);
  }

  /** The lower-cased prompt keeps the frame around the lower-cased request. */
  lemma LowerFrame(input: string, request: string)
    requires FrameAt(input, request)
    ensures var lower := Lower(input);
            var n := |request|;
            && lower[63..63 + n] == Lower(request)
            && lower[63 + n] == '\n'
            && lower[64 + n..88 + n] == Banner
  {
    var n := |request|;
    var lower := Lower(input);
    assert lower[63..63 + n] == Lower(input[63..63 + n]);
    BannerChars();
    forall j | 64 + n <= j < 88 + n ensures lower[j] == '=' {
      assert input[j] == input[64 + n..88 + n][j - 64 - n];
    }
  }

  /** The closing banner at 64 + n is the first delimiter after the request line. */
  lemma DelimiterInFrame(input: string, request: string)
    requires FrameAt(input, request)
    requires !Contains(Lower(request), Banner) && !Contains(Lower(request), FinalInstruction)
    ensures IndexOfNextDelimiter(Lower(input), 63) == 64 + |request|
  {
    LowerFrame(input, request);
    DelimiterAfterLine(Lower(input), Lower(request), 63);
  }

  /** The section after the header line of a framed prompt is the request line. */
  lemma SectionInFrame(input: string, request: string)
    requires FrameAt(input, request)
    requires request != [] && !IsTrimmable(request[0]) && !IsTrimmable(request[|request| - 1])
    requires request[0] != '=' && '\n' !in request
    requires !Contains(Lower(request), Banner) && !Contains(Lower(request), FinalInstruction)
    requires !IsBlank(request) && !EqualsIgnoreCase(request, Placeholder)
    ensures Section(input, 37) == request
  {
    var n := |request|;
    SkipInFrame(input, request);
    DelimiterInFrame(input, request);
    SectionBetween(input, 37, 63, 64 + n);
    RequestLineInFrame(input, request);
    TrimWithBreak(request);
    CleanedKeeps(request + "\n", request);
  }

  lemma RequestLineInFrame(input: string, request: string)
    requires FrameAt(input, request)
    ensures input[63..64 + |request|] == request + "\n"
  {
    var n := |request|;
    assert input[63..64 + n] == input[63..63 + n] + [input[63 + n]];
  }

  /** The section is the cleaned text from the first kept line to the delimiter after it. */
  lemma SectionBetween(input: string, lineBreak: nat, start: nat, stop: nat)
    requires lineBreak < |input|
    requires SkipFrom(input, lineBreak + 1) == start
    requires IndexOfNextDelimiter(Lower(input), start) == stop
    ensures start <= stop <= |input| && Section(input, lineBreak) == Cleaned(input[start..stop])
  {
  }

  /** The placeholder in upper case, as the template writes it, is the placeholder. */
  lemma UpperPlaceholder()
    ensures EqualsIgnoreCase("{{USER_REQUEST}}", Placeholder)
  {
    assert Lower("{{USER_REQUEST}}") == Placeholder;
  }

  /** A section whose trim is a real request is kept. */
  lemma CleanedKeeps(section: string, request: string)
    requires Trim(section) == request
    requires !IsBlank(request) && !EqualsIgnoreCase(request, Placeholder)
    ensures Cleaned(section) == request
  {
    UpperPlaceholder();
  }

  /** The request line of a framed prompt is extracted exactly, whatever follows the closing
      banner. */
  lemma ExtractsFramedRequest(request: string, rest: string)
    requires request != [] && !IsTrimmable(request[0]) && !IsTrimmable(request[|request| - 1])
    requires request[0] != '=' && '\n' !in request
    requires !Contains(Lower(request), Banner) && !Contains(Lower(request), FinalInstruction)
    requires !IsBlank(request) && !EqualsIgnoreCase(request, Placeholder)
    ensures ExtractUserRequest(Some(Framed(request, rest))) == request
  {
    var frame := Opening + request + "\n" + Banner;
    assert Framed(request, rest) == frame + rest;
    assert frame[0] == '=' && frame[|frame| - 1] == '=';
    TrimKeepsFrame(frame, rest);
    var k: nat :| k <= |rest| && Trim(frame + rest) == frame + rest[..k];
    var input := frame + rest[..k];
    assert input == Opening + request + "\n" + Banner + rest[..k];
    FrameOf(request, rest[..k]);
    HeaderInFrame(input, request);
    BreakInFrame(input, request);
    SectionInFrame(input, request);
  }
}
