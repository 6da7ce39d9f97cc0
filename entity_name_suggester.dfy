/** Entity-name hints offered when a request names no entity: one from the project name, one from
    a "project X" phrase and one from the first word of the request, in that order and without
    repeats, or "Item" when none of them yields a name. */
module EntityNameSuggester {
  import opened Wrappers
  import opened Text
  import opened NameTransforms
  import RequestParsing

  const DefaultHint: string := "Item"

  // ---------------------------------------------------------------------------------------------
  // The project-name hint

  /** A line terminator of java.util.regex when UNIX_LINES is off. */
  predicate IsLineTerminator(t: string) {
    t == "\n" || t == "\r" || t == "\r\n" || t == "\U{0085}" || t == "\U{2028}" || t == "\U{2029}"
  }

  /** "-api$" matches at k: "-api" starts there and "$" (without MULTILINE) holds after it, that is
      the input ends there or only a final line terminator follows. */
  predicate ApiSuffixAt(s: string, k: nat) {
    && k + 4 <= |s| && s[k..k + 4] == "-api"
    && (k + 4 == |s| || IsLineTerminator(s[k + 4..]))
  }

  /** replaceAll("-api$", ""), with the three places a match can stand written out. */
  function RemoveApiSuffix(s: string): string {
    if |s| >= 4 && s[|s| - 4..] == "-api" then s[..|s| - 4]
    else if |s| >= 5 && s[|s| - 5..|s| - 1] == "-api" && IsLineTerminator(s[|s| - 1..]) then
      s[..|s| - 5] + s[|s| - 1..]
    else if |s| >= 6 && s[|s| - 6..|s| - 2] == "-api" && s[|s| - 2..] == "\r\n" then
      s[..|s| - 6] + "\r\n"
    else s
  }

  /** Where "-api$" matches, those four characters and nothing else are removed; so it matches
      at one place at most. */
  lemma RemoveApiSuffixAt(s: string, k: nat)
    requires ApiSuffixAt(s, k)
    ensures RemoveApiSuffix(s) == s[..k] + s[k + 4..]
  {
    assert s[k + 3] == 'i';
    var tail := s[k + 4..];
    if tail == [] {
      assert s[|s| - 4..] == s[k..k + 4];
    } else if |tail| == 1 {
      assert s[|s| - 1] == tail[0] != 'i';
      assert s[|s| - 5..|s| - 1] == s[k..k + 4];
    } else {
      assert tail == "\r\n";
      assert s[|s| - 1] == '\n' && s[|s| - 2] == '\r';
      assert s[|s| - 6..|s| - 2] == s[k..k + 4];
    }
  }

  /** Without a match of "-api$" the input is unchanged. */
  lemma RemoveApiSuffixNone(s: string)
    requires forall k: nat :: k <= |s| ==> !ApiSuffixAt(s, k)
    ensures RemoveApiSuffix(s) == s
  {
    if |s| >= 4 {
      assert !ApiSuffixAt(s, |s| - 4);
    }
    if |s| >= 5 {
      assert !ApiSuffixAt(s, |s| - 5);
    }
    if |s| >= 6 {
      assert !ApiSuffixAt(s, |s| - 6);
    }
  }

  /** fromProjectName: the lower-cased name without a trailing "-api", Pascal-cased; nothing for
      a null name or when nothing is left. */
  function FromProjectName(projectName: Option<string>): Option<string> {
    if projectName.None? then None
    else
      var trimmed := RemoveApiSuffix(Lower(projectName.value));
      if trimmed == [] then None else Some(PascalCase(Some(trimmed)))
  }

  /** A name ending in "-api" loses exactly that suffix before it is Pascal-cased. */
  lemma ProjectHintOfApiName(base: string)
    requires Lower(base) != []
    ensures FromProjectName(Some(base + "-api")) == Some(PascalCase(Some(Lower(base))))
  {
    var s := Lower(base + "-api");
    LowerAppend(base, "-api");
    assert Lower("-api") == "-api";
    assert ApiSuffixAt(s, |base|);
    RemoveApiSuffixAt(s, |base|);
    assert s[..|base|] + s[|base| + 4..] == Lower(base);
  }

  /** "items-api" gives "Items". */
  lemma ProjectHintOfItemsApi(name: string)
    requires name == "items-api"
    ensures FromProjectName(Some(name)) == Some("Items")
  {
    var w := "items";
    assert name == w + "-api";
    LowerOfItems(w);
    ProjectHintOfApiName(w);
    PascalOfItems(w);
  }

  lemma LowerOfItems(w: string)
    requires w == "items"
    ensures Lower(w) == w
  {
    var l := Lower(w);
    assert l[0] == 'i' && l[1] == 't' && l[2] == 'e' && l[3] == 'm' && l[4] == 's';
  }

  /** A word of letters that are lower-case after the first is Pascal-cased by upper-casing its
      first letter. */
  lemma PascalOfLowerWord(w: string)
    requires w != [] && IsLetter(w[0]) && forall j :: 0 < j < |w| ==> IsLower(w[j])
    ensures PascalCase(Some(w)) == [UpperChar(w[0])] + w[1..]
  {
    forall j | 0 <= j < |w| ensures IsLetter(w[j]) {
      if j > 0 {
        assert IsLower(w[j]);
      }
    }
    LettersAreWord(w);
    PascalOfWord(w);
    CapitalizeLowerTail(w);
  }

  lemma CapitalizeLowerTail(w: string)
    requires w != [] && forall j :: 0 < j < |w| ==> IsLower(w[j])
    ensures Capitalize(Lower(w)) == [UpperChar(w[0])] + w[1..]
  {
    var l := Lower(w);
    assert l[1..] == w[1..];
    UpperOfLower(w[0]);
  }

  lemma PascalOfItems(w: string)
    requires w == "items"
    ensures PascalCase(Some(w)) == "Items"
  {
    ItemsParts();
    PascalOfLowerWord(w);
  }

  /** "items" is a letter before lower-case letters; with its first letter upper-cased it is
      "Items". */
  lemma ItemsParts()
    ensures var w := "items";
            && IsLetter(w[0]) && (forall j :: 0 < j < |w| ==> IsLower(w[j]))
            && [UpperChar(w[0])] + w[1..] == "Items"
  {
    assert UpperChar('i') == 'I';
    assert "items"[1..] == "tems";
  }

  // ---------------------------------------------------------------------------------------------
  // The "project X" hint

  /** PROJECT_NAME_PATTERN at q: "project" in any case, one or more \s, then a letter and the
      greedy run of [A-Za-z0-9_-] it starts, which is the captured group. */
  function ProjectAt(s: string, q: nat): (r: Option<string>)
    ensures r.Some? ==> r.value != [] && IsLetter(r.value[0])
    ensures r.Some? ==> forall j :: 0 <= j < |r.value| ==> RequestParsing.IsNameChar(r.value[j])
  {
    if !RequestParsing.PrefixAtIgnoreCase(s, q, "project") then None
    else
      var e := Span(s, q + 7, IsSpace);
      if e == q + 7 || e == |s| || !IsLetter(s[e]) then None
      else Some(s[e..Span(s, e + 1, RequestParsing.IsNameChar)])
  }

  function ProjectMatcher(s: string): nat -> Option<string> {
    (q: nat) => ProjectAt(s, q)
  }

  /** fromExplicitKeyword with PROJECT_NAME_PATTERN: the Pascal form of the group of the first
      match; nothing for a null request or without a match. */
  function FromExplicitKeyword(request: Option<string>): Option<string> {
    if request.None? then None
    else
      match RequestParsing.Find(0, |request.value|, ProjectMatcher(request.value))
      case None => None
      case Some(m) => Some(PascalCase(Some(m.1)))
  }

  /** The first "project X" in the request gives the hint. */
  lemma ExplicitKeywordFirst(s: string, q: nat)
    requires q < |s| && ProjectAt(s, q).Some?
    requires forall k :: 0 <= k < q ==> ProjectAt(s, k).None?
    ensures FromExplicitKeyword(Some(s)) == Some(PascalCase(ProjectAt(s, q)))
  {
    RequestParsing.FindAt(0, |s|, ProjectMatcher(s), q);
  }

  /** Without a "project X" anywhere there is no hint. */
  lemma ExplicitKeywordNone(s: string)
    requires forall k :: 0 <= k < |s| ==> ProjectAt(s, k).None?
    ensures FromExplicitKeyword(Some(s)).None?
  {
    RequestParsing.FindNone(0, |s|, ProjectMatcher(s));
  }

  // ---------------------------------------------------------------------------------------------
  // The first-word hint

  /** The first run of non-\s characters of a string that does not start with \s. */
  function FirstToken(t: string): (w: string)
    requires t != [] && !IsSpace(t[0])
    ensures w != [] && |w| <= |t| && w == t[..|w|]
    ensures forall j :: 0 <= j < |w| ==> !IsSpace(w[j])
    ensures |w| == |t| || IsSpace(t[|w|])
  {
    t[..Span(t, 0, NotSpace)]
  }

  /** The first token is the first element of split("\\s+"). */
  lemma FirstTokenOfSplit(t: string)
    requires t != [] && !IsSpace(t[0])
    ensures Tokens(t) != [] && Tokens(t)[0] == FirstToken(t)
  {
    SpanAt(t, 0, IsSpace, 0);
    assert t[0..Span(t, 0, NotSpace)] == FirstToken(t);
  }

  /** fromFirstWord: the Pascal form of the first token of the trimmed request; nothing for a null
      or all-trimmable request. */
  function FromFirstWord(request: Option<string>): Option<string> {
    if request.None? then None
    else
      var trimmed := Trim(request.value);
      if trimmed == [] then None else Some(PascalCase(Some(FirstToken(trimmed))))
  }

  /** The first-word hint is the Pascal form of the first element of the trimmed request split at
      \s runs. */
  lemma FirstWordIsFirstToken(s: string)
    requires Trim(s) != []
    ensures FromFirstWord(Some(s)) == Some(PascalCase(Some(Tokens(Trim(s))[0])))
  {
    FirstTokenOfSplit(Trim(s));
  }

  // ---------------------------------------------------------------------------------------------
  // suggest

  /** A candidate addIfPresent keeps: present and not blank. */
  predicate Usable(c: Option<string>) { c.Some? && !IsBlank(c.value) }

  predicate NoDuplicates(xs: seq<string>) {
    forall i, j :: 0 <= i < j < |xs| ==> xs[i] != xs[j]
  }

  /** addIfPresent on the insertion-ordered set, held as a sequence: a usable candidate not yet
      present is appended; anything else leaves the hints as they are. */
  function AddIfPresent(hints: seq<string>, candidate: Option<string>): (r: seq<string>)
    ensures hints <= r && |r| <= |hints| + 1
    ensures forall x :: x in r <==> x in hints || (Usable(candidate) && x == candidate.value)
  {
    if candidate.None? || IsBlank(candidate.value) || candidate.value in hints then hints
    else hints + [candidate.value]
  }

  /** The hints after adding the candidates one after another. */
  function Gather(cs: seq<Option<string>>): seq<string> {
    if cs == [] then [] else AddIfPresent(Gather(cs[..|cs| - 1]), cs[|cs| - 1])
  }

  /** The three hints suggest tries, in its order. */
  function Candidates(request: Option<string>, projectName: Option<string>): seq<Option<string>> {
    [FromProjectName(projectName), FromExplicitKeyword(request), FromFirstWord(request)]
  }

  /** Gathering keeps the set's laws: no repeats, no blank entry, at most one entry per
      candidate, and exactly the usable candidates' values. */
  lemma GatherIsSet(cs: seq<Option<string>>)
    ensures NoDuplicates(Gather(cs))
    ensures forall i :: 0 <= i < |Gather(cs)| ==> !IsBlank(Gather(cs)[i])
    ensures |Gather(cs)| <= |cs|
    ensures forall x :: x in Gather(cs) <==> exists i :: 0 <= i < |cs| && Usable(cs[i]) && cs[i].value == x
  {
    GatherShape(cs);
    GatherMembers(cs);
  }

  lemma {:induction false} GatherShape(cs: seq<Option<string>>)
    ensures NoDuplicates(Gather(cs))
    ensures forall i :: 0 <= i < |Gather(cs)| ==> !IsBlank(Gather(cs)[i])
    ensures |Gather(cs)| <= |cs|
  {
    if cs != [] {
      GatherShape(cs[..|cs| - 1]);
    }
  }

  lemma {:induction false} GatherMembers(cs: seq<Option<string>>)
    ensures forall x :: x in Gather(cs) <==> exists i :: 0 <= i < |cs| && Usable(cs[i]) && cs[i].value == x
  {
    if cs != [] {
      var init := cs[..|cs| - 1];
      GatherMembers(init);
      assert Gather(cs) == AddIfPresent(Gather(init), cs[|cs| - 1]);
      forall x ensures x in Gather(cs) <==> exists i :: 0 <= i < |cs| && Usable(cs[i]) && cs[i].value == x {
        if x in Gather(cs) && !(Usable(cs[|cs| - 1]) && x == cs[|cs| - 1].value) {
          var i :| 0 <= i < |init| && Usable(init[i]) && init[i].value == x;
          assert cs[i] == init[i];
        }
        if exists i :: 0 <= i < |cs| && Usable(cs[i]) && cs[i].value == x {
          var i :| 0 <= i < |cs| && Usable(cs[i]) && cs[i].value == x;
          if i < |init| {
            assert init[i] == cs[i];
          }
        }
      }
    }
  }

  /** Hints are only ever appended: the hints of the first k candidates are a prefix of the
      hints of all of them. */
  lemma {:induction false} GatherPrefix(cs: seq<Option<string>>, k: nat)
    requires k <= |cs|
    ensures Gather(cs[..k]) <= Gather(cs)
  {
    if k < |cs| {
      var init := cs[..|cs| - 1];
      assert init[..k] == cs[..k];
      GatherPrefix(init, k);
    } else {
      assert cs[..k] == cs;
    }
  }

  lemma GatherOfThree(a: Option<string>, b: Option<string>, c: Option<string>)
    ensures Gather([a, b, c]) == AddIfPresent(AddIfPresent(AddIfPresent([], a), b), c)
  {
    assert [a][..0] == [];
    assert Gather([a]) == AddIfPresent([], a);
    assert [a, b][..1] == [a];
    assert Gather([a, b]) == AddIfPresent(Gather([a]), b);
    assert [a, b, c][..2] == [a, b];
  }

  lemma ItemIsNotBlank()
    ensures !IsBlank(DefaultHint)
  {
    assert !IsWhitespace(DefaultHint[0]);
  }

  /** suggest over any list of candidates: the gathered hints, or "Item" alone when there are
      none. */
  function SuggestFrom(cs: seq<Option<string>>): seq<string> {
    var hints := Gather(cs);
    if hints == [] then AddIfPresent(hints, Some(DefaultHint)) else hints
  }

  /** suggest, as a value. */
  function SuggestOf(request: Option<string>, projectName: Option<string>): seq<string> {
    SuggestFrom(Candidates(request, projectName))
  }

  /** The result holds at least one and at most as many names as there are candidates (three in
      suggest), all distinct and non-blank. */
  lemma SuggestShape(cs: seq<Option<string>>)
    requires cs != []
    ensures var r := SuggestFrom(cs);
            && 1 <= |r| <= |cs|
            && NoDuplicates(r)
            && (forall i :: 0 <= i < |r| ==> !IsBlank(r[i]))
  {
    GatherIsSet(cs);
    ItemIsNotBlank();
  }

  /** The names are exactly the usable candidates' values, or "Item" alone when no candidate is
      usable. */
  lemma SuggestMembers(cs: seq<Option<string>>)
    ensures forall x :: x in SuggestFrom(cs) <==>
                        (exists i :: 0 <= i < |cs| && Usable(cs[i]) && cs[i].value == x)
                        || ((forall i :: 0 <= i < |cs| ==> !Usable(cs[i])) && x == DefaultHint)
  {
    GatherIsSet(cs);
    ItemIsNotBlank();
    if Gather(cs) != [] {
      assert SuggestFrom(cs) == Gather(cs);
      assert Gather(cs)[0] in Gather(cs);
      var i :| 0 <= i < |cs| && Usable(cs[i]) && cs[i].value == Gather(cs)[0];
      assert !(forall j :: 0 <= j < |cs| ==> !Usable(cs[j]));
    } else {
      assert SuggestFrom(cs) == [DefaultHint];
      forall j | 0 <= j < |cs| ensures !Usable(cs[j]) {
        if cs[j].Some? {
          assert cs[j].value !in Gather(cs);
        }
      }
    }
  }

  /** When every usable candidate has the value x, at most x is gathered. */
  lemma {:induction false} GatherOfSame(cs: seq<Option<string>>, x: string)
    requires forall i :: 0 <= i < |cs| && Usable(cs[i]) ==> cs[i].value == x
    ensures Gather(cs) == [] || Gather(cs) == [x]
  {
    if cs != [] {
      var init := cs[..|cs| - 1];
      assert forall i :: 0 <= i < |init| ==> init[i] == cs[i];
      GatherOfSame(init, x);
    }
  }

  /** The result is ["Item"] exactly when every usable candidate is "Item" (in particular when
      none is usable). */
  lemma SuggestIsItemIff(cs: seq<Option<string>>)
    ensures SuggestFrom(cs) == [DefaultHint] <==>
            forall i :: 0 <= i < |cs| && Usable(cs[i]) ==> cs[i].value == DefaultHint
  {
    ItemIsNotBlank();
    if forall i :: 0 <= i < |cs| && Usable(cs[i]) ==> cs[i].value == DefaultHint {
      GatherOfSame(cs, DefaultHint);
    } else {
      var i :| 0 <= i < |cs| && Usable(cs[i]) && cs[i].value != DefaultHint;
      GatherIsSet(cs);
      assert cs[i].value in Gather(cs);
    }
  }

  /** The hints come in the candidates' order: whatever the first k candidates contribute stands,
      in the same order, at the front of the result. */
  lemma SuggestInOrder(cs: seq<Option<string>>, k: nat)
    requires k <= |cs|
    ensures Gather(cs[..k]) <= SuggestFrom(cs)
  {
    GatherPrefix(cs, k);
    if Gather(cs) == [] {
      assert Gather(cs[..k]) == [];
    }
  }

  /** suggest: the three candidates are added in order to an insertion-ordered set, and "Item"
      when the set stayed empty. */
  method Suggest(request: Option<string>, projectName: Option<string>) returns (hints: seq<string>)
    ensures hints == SuggestFrom(Candidates(request, projectName))
  {
    hints := [];
    hints := AddIfPresent(hints, FromProjectName(projectName));
    hints := AddIfPresent(hints, FromExplicitKeyword(request));
    hints := AddIfPresent(hints, FromFirstWord(request));
    GatherOfThree(FromProjectName(projectName), FromExplicitKeyword(request), FromFirstWord(request));
    if hints == [] {
      hints := AddIfPresent(hints, Some(DefaultHint));
    }
  }

  // ---------------------------------------------------------------------------------------------
  // Requests of a known shape

  /** Every character is a lower-case letter. */
  predicate LowerLetters(w: string)
    decreases |w|
  {
    w == [] || (IsLower(w[0]) && LowerLetters(w[1..]))
  }

  lemma {:induction false} LowerLettersAt(w: string)
    requires LowerLetters(w)
    ensures forall j :: 0 <= j < |w| ==> IsLower(w[j])
    decreases |w|
  {
    if w != [] {
      LowerLettersAt(w[1..]);
      assert forall j :: 0 < j < |w| ==> w[j] == w[1..][j - 1];
    }
  }

  /** A word without upper-case letters occurs, ignoring case, where it stands. */
  lemma {:induction false} PrefixAtIgnoreCaseItself(s: string, q: nat, w: string)
    requires q + |w| <= |s| && s[q..q + |w|] == w
    requires forall j :: 0 <= j < |w| ==> !IsUpper(w[j])
    ensures RequestParsing.PrefixAtIgnoreCase(s, q, w)
    decreases |w|
  {
    if w != [] {
      assert s[q] == w[0];
      assert s[q + 1..q + 1 + |w[1..]|] == w[1..];
      PrefixAtIgnoreCaseItself(s, q + 1, w[1..]);
    }
  }

  /** No match starts at a character other than 'p' or 'P'. */
  lemma NoProjectBefore(s: string, q: nat)
    requires q < |s| && s[q] != 'p' && s[q] != 'P'
    ensures ProjectAt(s, q).None?
  {
  }

  /** "project", one space and a word of lower-case letters match as "project X" with the word
      as the group. */
  lemma ProjectPhraseAt(h: string, w: string, q: nat)
    requires q + 8 == |h| && h[q..] == "project "
    requires w != [] && forall j :: 0 <= j < |w| ==> IsLower(w[j])
    ensures ProjectAt(h + w, q) == Some(w)
  {
    var s := h + w;
    assert s[q..q + 7] == "project";
    PrefixAtIgnoreCaseItself(s, q, "project");
    assert s[q + 7] == ' ' && s[q + 8] == w[0];
    SpanAt(s, q + 7, IsSpace, q + 8);
    assert s[|h|..] == w;
    forall k | q + 9 <= k < |s| ensures RequestParsing.IsNameChar(s[k]) {
      assert s[k] == w[k - |h|];
    }
    SpanAt(s, q + 9, RequestParsing.IsNameChar, |s|);
    assert IsLetter(s[q + 8]);
    assert s[q + 8..|s|] == w;
  }

  /** A request made of a text without 'p' or 'P', "project", one space and a lower-case word gets
      the word, capitalised, as its "project X" hint. */
  lemma ProjectPhraseHint(pre: string, w: string)
    requires 'p' !in pre && 'P' !in pre
    requires w != [] && LowerLetters(w)
    ensures FromExplicitKeyword(Some(pre + "project " + w)) == Some([UpperChar(w[0])] + w[1..])
  {
    var h := pre + "project ";
    var s := h + w;
    LowerLettersAt(w);
    forall k | 0 <= k < |pre| ensures ProjectAt(s, k).None? {
      assert s[k] == pre[k];
      NoProjectBefore(s, k);
    }
    assert h[|pre|..] == "project ";
    ProjectPhraseAt(h, w, |pre|);
    ExplicitKeywordFirst(s, |pre|);
    PascalOfLowerWord(w);
  }

  /** Trimming a word followed by \s keeps the word in front, and it is the first token. */
  lemma FirstTokenOfWord(w: string, rest: string)
    requires w != [] && forall j :: 0 <= j < |w| ==> IsLetter(w[j])
    requires rest != [] && IsSpace(rest[0])
    ensures Trim(w + rest) != [] && !IsSpace(Trim(w + rest)[0]) && FirstToken(Trim(w + rest)) == w
  {
    assert !IsTrimmable(w[0]) && !IsTrimmable(w[|w| - 1]);
    TrimKeepsFrame(w, rest);
    var k: nat :| k <= |rest| && Trim(w + rest) == w + rest[..k];
    var t := w + rest[..k];
    assert forall j :: 0 <= j < |w| ==> t[j] == w[j];
    assert |t| == |w| || t[|w|] == rest[0];
    SpanAt(t, 0, NotSpace, |w|);
    assert t[..|w|] == w;
  }

  /** A request that starts with a capitalised word of letters followed by \s gets that word as its
      first-word hint. */
  lemma FirstWordHint(w: string, rest: string)
    requires |w| >= 1 && IsUpper(w[0]) && LowerLetters(w[1..])
    requires rest != [] && IsSpace(rest[0])
    ensures FromFirstWord(Some(w + rest)) == Some(w)
  {
    LowerLettersAt(w[1..]);
    assert forall j :: 0 < j < |w| ==> w[j] == w[1..][j - 1];
    FirstTokenOfWord(w, rest);
    PascalOfLowerWord(w);
    assert w == [UpperChar(w[0])] + w[1..];
  }

  /** Three distinct usable hints are all kept, in suggest's order. */
  lemma SuggestOfThree(request: Option<string>, projectName: Option<string>, a: string, b: string, c: string)
    requires FromProjectName(projectName) == Some(a)
    requires FromExplicitKeyword(request) == Some(b)
    requires FromFirstWord(request) == Some(c)
    requires !IsBlank(a) && !IsBlank(b) && !IsBlank(c) && a != b && a != c && b != c
    ensures SuggestOf(request, projectName) == [a, b, c]
  {
    SuggestFromThree(a, b, c);
  }

  lemma SuggestFromThree(a: string, b: string, c: string)
    requires !IsBlank(a) && !IsBlank(b) && !IsBlank(c) && a != b && a != c && b != c
    ensures SuggestFrom([Some(a), Some(b), Some(c)]) == [a, b, c]
  {
    GatherOfThree(Some(a), Some(b), Some(c));
    assert AddIfPresent([], Some(a)) == [a];
    assert AddIfPresent([a], Some(b)) == [a, b];
  }
}
