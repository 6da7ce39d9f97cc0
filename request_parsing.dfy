/** The text rules that turn a free-text request into an entity name, a list of fields, entity
    segments and API flags. Each regular expression of the parser becomes a scanner for the shape
    it accepts, with the greedy choices and the backtracking of the regular-expression engine
    worked out by hand; line terminators are '\n' and '\r'. */
module RequestParsing {
  import opened Wrappers
  import opened Text

  /** A field as the parser reads it: a name, an optional type hint and two modifiers. */
  datatype ParsedField = ParsedField(name: string, typeHint: Option<string>, nullable: bool, unique: bool)

  /** A field found by a scanner, and where the match ends. */
  datatype Found = Found(field: ParsedField, end: nat)

  /** A WITH_FIELDS match: where "with" starts, the list it captures and where the match ends. */
  datatype WithMatch = WithMatch(start: nat, list: string, end: nat)

  // ---------------------------------------------------------------------------------------------
  // Character classes and anchors

  /** A word character of \b: [A-Za-z0-9_]. */
  predicate IsWordChar(c: char) { IsAlnum(c) || c == '_' }

  /** The class [A-Za-z0-9_-] of entity names. */
  predicate IsNameChar(c: char) { IsWordChar(c) || c == '-' }

  predicate IsLineBreak(c: char) { c == '\n' || c == '\r' }
  predicate NotLineBreak(c: char) { !IsLineBreak(c) }

  /** The class [^\n\r.] of a with-clause list. */
  predicate NotListStop(c: char) { c != '\n' && c != '\r' && c != '.' }

  predicate NotDot(c: char) { c != '.' }
  predicate NotParen(c: char) { c != '(' && c != ')' }

  /** A non-empty run of name characters. */
  predicate IsName(t: string) { t != [] && forall i :: 0 <= i < |t| ==> IsNameChar(t[i]) }

  /** A name as the regular expressions capture it: a letter, then name characters. */
  predicate IsLetterName(t: string) { IsName(t) && IsLetter(t[0]) }

  /** \b before position q, when s[q] is a word character. */
  predicate WordStart(s: string, q: nat) { q == 0 || (q <= |s| && !IsWordChar(s[q - 1])) }

  /** \b after position q, when s[q - 1] is a word character. */
  predicate WordEnd(s: string, q: nat) { q >= |s| || !IsWordChar(s[q]) }

  /** The lower-case text w occurs at q, ignoring case; no word boundary is checked here. */
  function PrefixAtIgnoreCase(s: string, q: nat, w: string): (r: bool)
    decreases |w|
    ensures r ==> q + |w| <= |s|
  {
    if w == [] then q <= |s| else q < |s| && LowerChar(s[q]) == w[0] && PrefixAtIgnoreCase(s, q + 1, w[1..])
  }

  /** The end of the \s run that starts at i. */
  function SpaceEnd(s: string, i: nat): (j: nat)
    requires i <= |s|
    ensures i <= j <= |s|
  {
    Span(s, i, IsSpace)
  }

  /** ^\s* in multi-line mode can reach q: q is preceded by spacing that starts at the beginning of
      the input or right after a line terminator. */
  predicate LineStart(s: string, q: nat)
    requires q <= |s|
    decreases q
  {
    q == 0 || (IsSpace(s[q - 1]) && (IsLineBreak(s[q - 1]) || LineStart(s, q - 1)))
  }

  predicate LineBreakIn(s: string, lo: nat, hi: nat)
    requires lo <= hi <= |s|
  {
    exists k | lo <= k < hi :: IsLineBreak(s[k])
  }

  /** Matcher.find: the leftmost position in [from, n) where at succeeds, with what it found. */
  function Find<T>(from: nat, n: nat, at: nat -> Option<T>): (r: Option<(nat, T)>)
    decreases n - from
    ensures r.Some? ==> from <= r.value.0 < n && at(r.value.0) == Some(r.value.1)
    ensures r.Some? ==> forall k :: from <= k < r.value.0 ==> at(k).None?
    ensures r.None? ==> forall k :: from <= k < n ==> at(k).None?
  {
    if from >= n then None
    else
      match at(from)
      case Some(v) => Some((from, v))
      case None => Find(from + 1, n, at)
  }

  /** The leftmost match is the one at q when nothing matches between from and q. */
  lemma {:induction false} FindAt<T>(from: nat, n: nat, at: nat -> Option<T>, q: nat)
    requires from <= q < n && at(q).Some?
    requires forall k :: from <= k < q ==> at(k).None?
    ensures Find(from, n, at) == Some((q, at(q).value))
    decreases q - from
  {
    if from < q {
      FindAt(from + 1, n, at, q);
    }
  }

  /** Nothing is found when nothing matches anywhere in [from, n). */
  lemma {:induction false} FindNone<T>(from: nat, n: nat, at: nat -> Option<T>)
    requires forall k :: from <= k < n ==> at(k).None?
    ensures Find(from, n, at) == None
    decreases n - from
  {
    if from < n {
      FindNone(from + 1, n, at);
    }
  }

  /** The items of successive matches from position from on, each search resuming where the
      previous match ended (a loop over Matcher.find). */
  function Matches<T, U>(n: nat, from: nat, at: nat -> Option<T>, end: T -> nat, item: T -> seq<U>): seq<U>
    requires forall q: nat :: at(q).Some? ==> q < end(at(q).value) <= n
    decreases n - from
  {
    match Find(from, n, at)
    case None => []
    case Some((_, m)) => item(m) + Matches(n, end(m), at, end, item)
  }

  /** One round of the find loop: the next match's items, then the matches after its end. */
  lemma MatchesStep<T, U>(n: nat, from: nat, at: nat -> Option<T>, end: T -> nat, item: T -> seq<U>)
    requires forall q: nat :: at(q).Some? ==> q < end(at(q).value) <= n
    requires Find(from, n, at).Some?
    ensures var m := Find(from, n, at).value.1;
            Matches(n, from, at, end, item) == item(m) + Matches(n, end(m), at, end, item)
  {
  }

  /** A single match at q, with nothing before it and nothing after it ends: its items are all
      the items. */
  lemma MatchesOnceAt<T, U>(n: nat, at: nat -> Option<T>, end: T -> nat, item: T -> seq<U>, q: nat, v: T)
    requires forall q: nat :: at(q).Some? ==> q < end(at(q).value) <= n
    requires forall p :: 0 <= p < q ==> at(p).None?
    requires at(q) == Some(v)
    requires forall p :: end(v) <= p < n ==> at(p).None?
    ensures Matches(n, 0, at, end, item) == item(v)
  {
    FindAt(0, n, at, q);
    FindNone(end(v), n, at);
    MatchesOnce(n, at, end, item, q, v);
  }

  /** A single match, after which nothing is found: its items are all the items. */
  lemma MatchesOnce<T, U>(n: nat, at: nat -> Option<T>, end: T -> nat, item: T -> seq<U>, q: nat, v: T)
    requires forall q: nat :: at(q).Some? ==> q < end(at(q).value) <= n
    requires Find(0, n, at) == Some((q, v)) && Find(end(v), n, at) == None
    ensures Matches(n, 0, at, end, item) == item(v)
  {
    MatchesStep(n, 0, at, end, item);
  }

  /** Adding the next match's items to what the loop has collected keeps its invariant. */
  lemma CollectStep<T, U>(out: seq<U>, items: seq<U>, n: nat, from: nat, at: nat -> Option<T>, end: T -> nat, item: T -> seq<U>)
    requires forall q: nat :: at(q).Some? ==> q < end(at(q).value) <= n
    requires Find(from, n, at).Some? && items == item(Find(from, n, at).value.1)
    requires out + Matches(n, from, at, end, item) == Matches(n, 0, at, end, item)
    ensures (out + items) + Matches(n, end(Find(from, n, at).value.1), at, end, item) == Matches(n, 0, at, end, item)
  {
    MatchesStep(n, from, at, end, item);
    var rest := Matches(n, end(Find(from, n, at).value.1), at, end, item);
    assert (out + items) + rest == out + (items + rest);
  }

  /** The while (matcher.find()) loop that adds the items of every match. */
  method CollectMatches<T, U>(n: nat, at: nat -> Option<T>, end: T -> nat, item: T -> seq<U>) returns (out: seq<U>)
    requires forall q: nat :: at(q).Some? ==> q < end(at(q).value) <= n
    ensures out == Matches(n, 0, at, end, item)
  {
    out := [];
    var from := 0;
    var m := Find(from, n, at);
    while m.Some?
      invariant m == Find(from, n, at)
      invariant out + Matches(n, from, at, end, item) == Matches(n, 0, at, end, item)
      decreases n - from
    {
      out := out + item(m.value.1);
      from := end(m.value.1);
      m := Find(from, n, at);
    }
  }

  /** The results of f that are present, in order. */
  function Present<T, U>(xs: seq<T>, f: T -> Option<U>): (r: seq<U>)
    ensures |r| <= |xs|
  {
    if xs == [] then [] else (match f(xs[0]) case Some(y) => [y] case None => []) + Present(xs[1..], f)
  }

  /** Every result comes from some element. */
  lemma {:induction false} PresentFrom<T, U>(xs: seq<T>, f: T -> Option<U>)
    ensures forall i :: 0 <= i < |Present(xs, f)| ==> exists j :: 0 <= j < |xs| && f(xs[j]) == Some(Present(xs, f)[i])
    decreases |xs|
  {
    if xs != [] {
      var rest := Present(xs[1..], f);
      PresentFrom(xs[1..], f);
      var h := if f(xs[0]).Some? then 1 else 0;
      assert Present(xs, f) == (if f(xs[0]).Some? then [f(xs[0]).value] else []) + rest;
      forall i | 0 <= i < |Present(xs, f)|
        ensures exists j :: 0 <= j < |xs| && f(xs[j]) == Some(Present(xs, f)[i])
      {
        if i < h {
          assert f(xs[0]) == Some(Present(xs, f)[i]);
        } else {
          var j :| 0 <= j < |xs[1..]| && f(xs[1..][j]) == Some(rest[i - h]);
          assert f(xs[j + 1]) == Some(Present(xs, f)[i]);
        }
      }
    } else {
      assert Present(xs, f) == [];
    }
  }

  /** The loop that keeps the present results of f over xs. */
  method CollectPresent<T, U>(xs: seq<T>, f: T -> Option<U>) returns (out: seq<U>)
    ensures out == Present(xs, f)
  {
    out := [];
    for i := 0 to |xs|
      invariant out + Present(xs[i..], f) == Present(xs, f)
    {
      assert xs[i..][1..] == xs[i + 1..];
      var y := f(xs[i]);
      if y.Some? {
        out := out + [y.value];
      }
    }
  }

  /** The present result of f on the right-most element that has one. */
  function LastPresent<T, U>(xs: seq<T>, f: T -> Option<U>): Option<U> {
    if xs == [] then None
    else if f(xs[|xs| - 1]).Some? then f(xs[|xs| - 1])
    else LastPresent(xs[..|xs| - 1], f)
  }

  /** LastPresent finds the right-most element with a result, and nothing exactly when no element
      has one. */
  lemma {:induction false} LastPresentIsLast<T, U>(xs: seq<T>, f: T -> Option<U>)
    ensures LastPresent(xs, f).None? <==> forall i :: 0 <= i < |xs| ==> f(xs[i]).None?
    ensures LastPresent(xs, f).Some? ==>
              exists i :: 0 <= i < |xs| && LastPresent(xs, f) == f(xs[i]) && forall j :: i < j < |xs| ==> f(xs[j]).None?
    decreases |xs|
  {
    if xs != [] && f(xs[|xs| - 1]).None? {
      var front := xs[..|xs| - 1];
      LastPresentIsLast(front, f);
      assert forall i :: 0 <= i < |front| ==> front[i] == xs[i];
      if LastPresent(front, f).Some? {
        var i :| 0 <= i < |front| && LastPresent(front, f) == f(front[i]) && forall j :: i < j < |front| ==> f(front[j]).None?;
        assert LastPresent(xs, f) == f(xs[i]);
      }
    }
  }

  /** The right-to-left scan that stops at the first element with a result. */
  method ScanBack<T, U>(xs: seq<T>, f: T -> Option<U>) returns (r: Option<U>)
    ensures r == LastPresent(xs, f)
  {
    var i := |xs|;
    assert xs[..i] == xs;
    while i > 0
      invariant 0 <= i <= |xs|
      invariant LastPresent(xs, f) == LastPresent(xs[..i], f)
    {
      var y := f(xs[i - 1]);
      if y.Some? {
        return y;
      }
      assert xs[..i][..i - 1] == xs[..i - 1];
      i := i - 1;
    }
    return None;
  }

  // ---------------------------------------------------------------------------------------------
  // Entity names: ENTITY_EXPLICIT, ENTITY_API_FOR, ENTITY_MANAGE and the with-clause fallback

  /** ENTITY_EXPLICIT with "entity" at q: a line holding only "entity", ':' or '=', and a name
      (spacing anywhere); the name is the whole run of [A-Za-z0-9_-] after the separator, and only
      spacing that reaches a line end or the end of the input may follow it. */
  function ExplicitAt(s: string, q: nat): (r: Option<string>)
    ensures r.Some? ==> IsLetterName(r.value)
  {
    if !PrefixAtIgnoreCase(s, q, "entity") || !LineStart(s, q) then None
    else
      var b := SpaceEnd(s, q + 6);
      if b == |s| || (s[b] != ':' && s[b] != '=') then None
      else
        var c := SpaceEnd(s, b + 1);
        if c == |s| || !IsLetter(s[c]) then None
        else
          var d := Span(s, c, IsNameChar);
          var e := SpaceEnd(s, d);
          if e == |s| || LineBreakIn(s, d, e) then Some(s[c..d]) else None
  }

  /** The end of a name that starts with a letter at j: the run of [A-Za-z0-9_-] without its
      trailing '-', so that a word boundary follows it. */
  function NameEnd(s: string, j: nat, d: nat): (e: nat)
    requires j < d <= |s| && IsLetter(s[j])
    decreases d
    ensures j < e <= d && IsWordChar(s[e - 1])
    ensures forall k :: e <= k < d ==> !IsWordChar(s[k])
  {
    if IsWordChar(s[d - 1]) then d else NameEnd(s, j, d - 1)
  }

  function NameAt(s: string, j: nat): (r: string)
    requires j < |s| && IsLetter(s[j])
    ensures IsLetterName(r) && IsWordChar(r[|r| - 1])
  {
    var d := Span(s, j, IsNameChar);
    s[j..NameEnd(s, j, d)]
  }

  /** Where the spacing after an article "an", "a" or "the" at i ends (in the order the
      alternatives are tried), or i when there is none. */
  function ArticleEnd(s: string, i: nat): (j: nat)
    requires i <= |s|
    ensures i <= j <= |s|
  {
    if PrefixAtIgnoreCase(s, i, "an") && i + 2 < |s| && IsSpace(s[i + 2]) then SpaceEnd(s, i + 2)
    else if PrefixAtIgnoreCase(s, i, "a") && i + 1 < |s| && IsSpace(s[i + 1]) then SpaceEnd(s, i + 1)
    else if PrefixAtIgnoreCase(s, i, "the") && i + 3 < |s| && IsSpace(s[i + 3]) then SpaceEnd(s, i + 3)
    else i
  }

  /** The name after "api for" or "manage" and its spacing: an article is skipped when a name
      follows it, otherwise the name starts right there. */
  function ArticleName(s: string, i: nat): (r: Option<string>)
    requires i <= |s|
    ensures r.Some? ==> IsLetterName(r.value)
  {
    if i == |s| || !IsLetter(s[i]) then None
    else
      var j := ArticleEnd(s, i);
      if j > i && j < |s| && IsLetter(s[j]) then Some(NameAt(s, j)) else Some(NameAt(s, i))
  }

  /** ENTITY_API_FOR with "api" at q. */
  function ApiForAt(s: string, q: nat): (r: Option<string>)
    ensures r.Some? ==> IsLetterName(r.value)
  {
    if !WordStart(s, q) || !PrefixAtIgnoreCase(s, q, "api") || q + 3 == |s| || !IsSpace(s[q + 3]) then None
    else
      var i := SpaceEnd(s, q + 3);
      if !PrefixAtIgnoreCase(s, i, "for") || i + 3 == |s| || !IsSpace(s[i + 3]) then None
      else ArticleName(s, SpaceEnd(s, i + 3))
  }

  /** ENTITY_MANAGE with "manage" at q. */
  function ManageAt(s: string, q: nat): (r: Option<string>)
    ensures r.Some? ==> IsLetterName(r.value)
  {
    if !WordStart(s, q) || !PrefixAtIgnoreCase(s, q, "manage") || q + 6 == |s| || !IsSpace(s[q + 6]) then None
    else ArticleName(s, SpaceEnd(s, q + 6))
  }

  /** The last position in [lo, hi) that is not a line terminator. */
  function LastNonBreak(s: string, lo: nat, hi: nat): (r: Option<nat>)
    requires hi <= |s|
    decreases hi
    ensures r.Some? ==> lo <= r.value < hi && !IsLineBreak(s[r.value])
  {
    if hi <= lo then None
    else if !IsLineBreak(s[hi - 1]) then Some(hi - 1)
    else LastNonBreak(s, lo, hi - 1)
  }

  /** WITH_FIELDS with "with" at q. The list is the run of [^\n\r.] after all the spacing; when
      that run is empty the engine gives back spacing, and the list is the last spacing character
      that is not a line terminator (a blank list). */
  function WithAt(s: string, q: nat): (r: Option<WithMatch>)
    ensures r.Some? ==> r.value.start == q < r.value.end <= |s| && r.value.list != []
  {
    if !WordStart(s, q) || !PrefixAtIgnoreCase(s, q, "with") || q + 4 == |s| || !IsSpace(s[q + 4]) then None
    else
      var e := SpaceEnd(s, q + 4);
      var g := Span(s, e, NotListStop);
      if g > e then Some(WithMatch(q, s[e..g], g))
      else
        match LastNonBreak(s, q + 5, e)
        case Some(k) => Some(WithMatch(q, [s[k]], k + 1))
        case None => None
  }

  function FindExplicit(s: string): Option<(nat, string)> { Find(0, |s|, q => ExplicitAt(s, q)) }
  function FindApiFor(s: string): Option<(nat, string)> { Find(0, |s|, q => ApiForAt(s, q)) }
  function FindManage(s: string): Option<(nat, string)> { Find(0, |s|, q => ManageAt(s, q)) }
  function FindWith(s: string): Option<(nat, WithMatch)> { Find(0, |s|, WithMatcher(s)) }

  /** The words the with-clause fallback never takes for an entity name. */
  const Reserved: set<string> := {"api", "crud", "rest", "service", "endpoint", "endpoints"}

  /** looksLikeEntityToken. */
  predicate LooksLikeEntityToken(t: string) {
    !IsBlank(t) && Lower(t) !in Reserved
  }

  /** A token with every character outside [A-Za-z0-9_-] removed. */
  function CleanToken(t: string): (r: string)
    ensures forall i :: 0 <= i < |r| ==> IsNameChar(r[i])
  {
    Filter(t, IsNameChar)
  }

  /** A token, cleaned, when it looks like an entity name. */
  function EntityToken(t: string): (r: Option<string>)
    ensures r.Some? <==> LooksLikeEntityToken(CleanToken(t))
    ensures r.Some? ==> r.value == CleanToken(t) && IsName(r.value) && Lower(r.value) !in Reserved
  {
    var c := CleanToken(t);
    if LooksLikeEntityToken(c) then Some(c) else None
  }

  /** The cleaned right-most token that looks like an entity name. */
  function LastEntityToken(tokens: seq<string>): Option<string> {
    LastPresent(tokens, EntityToken)
  }

  /** The with-clause fallback: the tokens of the trimmed text before the first "with". */
  function WithFallback(s: string): (r: Option<string>)
    ensures r.Some? ==> IsName(r.value) && Lower(r.value) !in Reserved
  {
    match FindWith(s)
    case None => None
    case Some((q, _)) =>
      var tokens := Tokens(Trim(s[..q]));
      LastPresentIsLast(tokens, EntityToken);
      LastEntityToken(tokens)
  }

  /** extractEntityName: the first of an explicit "entity:" line, "api for X", "manage X" and the
      with-clause fallback that finds a name. */
  function EntityName(request: Option<string>): Option<string> {
    if request.None? then None
    else
      var s := request.value;
      var explicit := FindExplicit(s);
      if explicit.Some? then Some(explicit.value.1)
      else
        var apiFor := FindApiFor(s);
        if apiFor.Some? then Some(apiFor.value.1)
        else
          var manage := FindManage(s);
          if manage.Some? then Some(manage.value.1)
          else WithFallback(s)
  }

  /** Every name found is a non-empty run of [A-Za-z0-9_-]. */
  lemma EntityNameIsName(request: Option<string>)
    ensures EntityName(request).Some? ==> IsName(EntityName(request).value)
  {
    if request.Some? {
      var s := request.value;
      if FindExplicit(s).Some? {
        assert ExplicitAt(s, FindExplicit(s).value.0) == Some(FindExplicit(s).value.1);
      } else if FindApiFor(s).Some? {
        assert ApiForAt(s, FindApiFor(s).value.0) == Some(FindApiFor(s).value.1);
      } else if FindManage(s).Some? {
        assert ManageAt(s, FindManage(s).value.0) == Some(FindManage(s).value.1);
      }
    }
  }

  /** An explicit "entity:" line wins over every other rule: the first such line names the
      entity. */
  lemma ExplicitFirst(s: string, q: nat)
    requires ExplicitAt(s, q).Some?
    requires forall k :: 0 <= k < q ==> ExplicitAt(s, k).None?
    ensures EntityName(Some(s)) == ExplicitAt(s, q)
  {
    FindAt(0, |s|, k => ExplicitAt(s, k), q);
  }

  /** Without an explicit line, the first "api for X" names the entity, whatever "manage" or
      "with" follow. */
  lemma ApiForSecond(s: string, q: nat)
    requires forall k :: 0 <= k < |s| ==> ExplicitAt(s, k).None?
    requires ApiForAt(s, q).Some?
    requires forall k :: 0 <= k < q ==> ApiForAt(s, k).None?
    ensures EntityName(Some(s)) == ApiForAt(s, q)
  {
    FindAt(0, |s|, k => ApiForAt(s, k), q);
  }

  /** The with-clause fallback is reached only when no rule before it applies anywhere. */
  lemma FallbackLast(s: string)
    requires forall k :: 0 <= k < |s| ==> ExplicitAt(s, k).None? && ApiForAt(s, k).None? && ManageAt(s, k).None?
    ensures EntityName(Some(s)) == WithFallback(s)
  {
    FindNone(0, |s|, q => ExplicitAt(s, q));
    FindNone(0, |s|, q => ApiForAt(s, q));
    FindNone(0, |s|, q => ManageAt(s, q));
  }

  /** The fallback takes the right-most qualifying token: it returns a cleaned token that looks
      like an entity name, and every token after it does not; it returns nothing exactly when no
      token qualifies. */
  lemma LastEntityTokenIsLast(tokens: seq<string>)
    ensures LastEntityToken(tokens).None? <==>
            forall i :: 0 <= i < |tokens| ==> !LooksLikeEntityToken(CleanToken(tokens[i]))
    ensures LastEntityToken(tokens).Some? ==>
            exists i :: 0 <= i < |tokens| && LastEntityToken(tokens) == Some(CleanToken(tokens[i]))
                        && LooksLikeEntityToken(CleanToken(tokens[i]))
                        && forall j :: i < j < |tokens| ==> !LooksLikeEntityToken(CleanToken(tokens[j]))
  {
    LastPresentIsLast(tokens, EntityToken);
    if LastEntityToken(tokens).Some? {
      var i :| 0 <= i < |tokens| && LastEntityToken(tokens) == EntityToken(tokens[i])
               && forall j :: i < j < |tokens| ==> EntityToken(tokens[j]).None?;
      assert LastEntityToken(tokens) == Some(CleanToken(tokens[i]));
    }
  }

  method ExtractEntityName(request: Option<string>) returns (r: Option<string>)
    ensures r == EntityName(request)
  {
    if request.None? {
      return None;
    }
    var s := request.value;
    var explicit := FindExplicit(s);
    if explicit.Some? {
      return Some(explicit.value.1);
    }
    var apiFor := FindApiFor(s);
    if apiFor.Some? {
      return Some(apiFor.value.1);
    }
    var manage := FindManage(s);
    if manage.Some? {
      return Some(manage.value.1);
    }
    var with := FindWith(s);
    r := None;
    if with.Some? {
      var beforeWith := Trim(s[..with.value.0]);
      r := ScanBack(Tokens(beforeWith), EntityToken);
    }
  }

  // ---------------------------------------------------------------------------------------------
  // Modifiers and flags

  /** containsNullable: "optional", "nullable" or "null", ignoring case. */
  predicate ContainsNullable(text: string) {
    var lower := Lower(text);
    Contains(lower, "optional") || Contains(lower, "nullable") || Contains(lower, "null")
  }

  /** containsUnique: "unique" or "must be unique", ignoring case. */
  predicate ContainsUnique(text: string) {
    var lower := Lower(text);
    Contains(lower, "unique") || Contains(lower, "must be unique")
  }

  /** The "nullable" and "must be unique" tests add nothing: they contain "null" and "unique". */
  lemma ModifierTests(text: string)
    ensures ContainsNullable(text) <==> Contains(Lower(text), "optional") || Contains(Lower(text), "null")
    ensures ContainsUnique(text) <==> Contains(Lower(text), "unique")
  {
    var lower := Lower(text);
    if Contains(lower, "nullable") {
      assert "nullable" == "null" + "able";
      ContainsPrefix(lower, "null", "able");
    }
    if Contains(lower, "must be unique") {
      assert "must be unique" == "must be " + "unique";
      ContainsSuffix(lower, "must be ", "unique");
    }
  }

  /** Some phrase of the list occurs in the text. */
  predicate ContainsAny(text: string, phrases: seq<string>) {
    exists i | 0 <= i < |phrases| :: Contains(text, phrases[i])
  }

  const CrudPhrases: seq<string> := ["no crud", "without crud", "disable crud", "read-only", "readonly"]
  const PaginationPhrases: seq<string> := ["no pagination", "without pagination", "disable pagination"]
  const SortingPhrases: seq<string> := ["no sorting", "without sorting", "disable sorting"]

  predicate ContainsDisableCrud(lowerRequest: string) { ContainsAny(lowerRequest, CrudPhrases) }
  predicate ContainsDisablePagination(lowerRequest: string) { ContainsAny(lowerRequest, PaginationPhrases) }
  predicate ContainsDisableSorting(lowerRequest: string) { ContainsAny(lowerRequest, SortingPhrases) }

  /** A phrase found in a text is found in every text around it. */
  lemma ContainsWithin(a: string, s: string, b: string, p: string)
    requires Contains(s, p)
    ensures Contains(a + s + b, p)
  {
    var j := IndexOf(s, p, 0);
    assert (a + s + b)[|a| + j..|a| + j + |p|] == s[j..j + |p|];
    assert OccursAt(a + s + b, p, |a| + j);
    ContainsIff(a + s + b, p);
  }

  lemma ContainsAnyWithin(a: string, s: string, b: string, phrases: seq<string>)
    requires ContainsAny(s, phrases)
    ensures ContainsAny(a + s + b, phrases)
  {
    var i :| 0 <= i < |phrases| && Contains(s, phrases[i]);
    ContainsWithin(a, s, b, phrases[i]);
  }

  /** The disable checks are substring tests: text around a disabling phrase never re-enables a
      feature. */
  lemma DisableChecksKeep(a: string, s: string, b: string)
    ensures ContainsDisableCrud(s) ==> ContainsDisableCrud(a + s + b)
    ensures ContainsDisablePagination(s) ==> ContainsDisablePagination(a + s + b)
    ensures ContainsDisableSorting(s) ==> ContainsDisableSorting(a + s + b)
  {
    if ContainsDisableCrud(s) { ContainsAnyWithin(a, s, b, CrudPhrases); }
    if ContainsDisablePagination(s) { ContainsAnyWithin(a, s, b, PaginationPhrases); }
    if ContainsDisableSorting(s) { ContainsAnyWithin(a, s, b, SortingPhrases); }
  }

  // ---------------------------------------------------------------------------------------------
  // Field lists of a with-clause

  /** Where a leading "field", "fields", "attribute" or "attributes" at i ends, or i. */
  function KeywordEnd(s: string, i: nat): (j: nat)
    requires i <= |s|
    ensures i <= j <= |s|
  {
    if PrefixAtIgnoreCase(s, i, "field") then (if PrefixAtIgnoreCase(s, i + 5, "s") then i + 6 else i + 5)
    else if PrefixAtIgnoreCase(s, i, "attribute") then (if PrefixAtIgnoreCase(s, i + 9, "s") then i + 10 else i + 9)
    else i
  }

  /** stripFieldListPrefix: a leading keyword with its spacing and one ':', '=' or '-' is cut. */
  function StripFieldListPrefix(list: string): (r: string)
    ensures |r| <= |list| && r == list[|list| - |r|..]
    ensures KeywordEnd(list, SpaceEnd(list, 0)) == SpaceEnd(list, 0) ==> r == list
  {
    var i := SpaceEnd(list, 0);
    var k := KeywordEnd(list, i);
    if k == i then list
    else
      var r := StripSeparator(list[k..]);
      assert list[k..][|list[k..]| - |r|..] == list[|list| - |r|..];
      r
  }

  /** What follows the keyword: spacing, at most one ':', '=' or '-', and spacing are cut. */
  function StripSeparator(t: string): (r: string)
    ensures |r| <= |t| && r == t[|t| - |r|..]
  {
    var j := SpaceEnd(t, 0);
    var j' := if j < |t| && (t[j] == ':' || t[j] == '=' || t[j] == '-') then j + 1 else j;
    t[SpaceEnd(t, j')..]
  }

  /** PrefixAtIgnoreCase is the case-insensitive test that the text at q reads w. */
  lemma {:induction false} PrefixAtIgnoreCaseIff(s: string, q: nat, w: string)
    ensures PrefixAtIgnoreCase(s, q, w) <==> q + |w| <= |s| && Lower(s[q..q + |w|]) == w
    decreases |w|
  {
    if w != [] && q < |s| {
      PrefixAtIgnoreCaseIff(s, q + 1, w[1..]);
      if q + |w| <= |s| {
        var t := s[q..q + |w|];
        assert t[1..] == s[q + 1..q + 1 + |w[1..]|];
        assert Lower(t) == [LowerChar(t[0])] + Lower(t[1..]);
        if Lower(t) == w {
          assert Lower(t)[1..] == w[1..];
        }
      }
    }
  }

  /** The keywords stripFieldListPrefix removes, in lower case. */
  predicate IsListKeyword(lower: string) {
    lower == "field" || lower == "fields" || lower == "attribute" || lower == "attributes"
  }

  /** A keyword in any case at i ends where it ends, unless a singular keyword runs straight into
      an 's', which the pattern takes too. */
  lemma KeywordEndOf(list: string, i: nat, k: nat)
    requires i <= k <= |list| && IsListKeyword(Lower(list[i..k]))
    requires Lower(list[i..k]) == "field" || Lower(list[i..k]) == "attribute" ==>
               k == |list| || LowerChar(list[k]) != 's'
    ensures KeywordEnd(list, i) == k
  {
    var w := Lower(list[i..k]);
    if w == "field" || w == "fields" {
      FieldKeywordEnd(list, i, k);
    } else {
      AttributeKeywordEnd(list, i, k);
    }
  }

  lemma FieldKeywordEnd(list: string, i: nat, k: nat)
    requires i <= k <= |list| && (Lower(list[i..k]) == "field" || Lower(list[i..k]) == "fields")
    requires Lower(list[i..k]) == "field" ==> k == |list| || LowerChar(list[k]) != 's'
    ensures KeywordEnd(list, i) == k
  {
    var w := Lower(list[i..k]);
    PluralKeywords();
    if w == "field" {
      assert w[..5] == w;
    }
    PrefixAtIgnoreCasePrefix(list, i, k, "field");
    PrefixAtIgnoreCaseOne(list, i + 5, 's');
    if w == "fields" {
      assert w[5] == LowerChar(list[i + 5]);
    }
  }

  lemma AttributeKeywordEnd(list: string, i: nat, k: nat)
    requires i <= k <= |list| && (Lower(list[i..k]) == "attribute" || Lower(list[i..k]) == "attributes")
    requires Lower(list[i..k]) == "attribute" ==> k == |list| || LowerChar(list[k]) != 's'
    ensures KeywordEnd(list, i) == k
  {
    AttributeWords(list, i, k);
    PrefixAtIgnoreCaseOne(list, i, 'f');
  }

  lemma AttributeWords(list: string, i: nat, k: nat)
    requires i <= k <= |list| && (Lower(list[i..k]) == "attribute" || Lower(list[i..k]) == "attributes")
    requires Lower(list[i..k]) == "attribute" ==> k == |list| || LowerChar(list[k]) != 's'
    ensures LowerChar(list[i]) == 'a' && PrefixAtIgnoreCase(list, i, "attribute")
    ensures PrefixAtIgnoreCase(list, i + 9, "s") <==> k == i + 10
  {
    var w := Lower(list[i..k]);
    PluralKeywords();
    assert w[0] == LowerChar(list[i]);
    if w == "attribute" {
      assert w[..9] == w;
    }
    PrefixAtIgnoreCasePrefix(list, i, k, "attribute");
    PrefixAtIgnoreCaseOne(list, i + 9, 's');
    if w == "attributes" {
      assert w[9] == LowerChar(list[i + 9]);
    }
  }

  /** The plural keywords extend the singular ones by an 's'. */
  lemma PluralKeywords()
    ensures "fields"[..5] == "field" && "fields"[5] == 's'
    ensures "attributes"[..9] == "attribute" && "attributes"[9] == 's'
    ensures "attribute"[0] == 'a' && "attributes"[0] == 'a'
  {
  }

  /** A word the lower-cased text from q starts with occurs at q. */
  lemma PrefixAtIgnoreCasePrefix(s: string, q: nat, k: nat, w: string)
    requires q + |w| <= k <= |s| && Lower(s[q..k])[..|w|] == w
    ensures PrefixAtIgnoreCase(s, q, w)
  {
    PrefixAtIgnoreCaseIff(s, q, w);
    assert Lower(s[q..q + |w|]) == Lower(s[q..k])[..|w|];
  }

  /** A word of one letter occurs where the lower-cased character is that letter; a word that
      starts with another letter does not. */
  lemma PrefixAtIgnoreCaseOne(s: string, q: nat, c: char)
    ensures PrefixAtIgnoreCase(s, q, [c]) <==> q < |s| && LowerChar(s[q]) == c
    ensures forall w :: |w| > 0 && w[0] == c && (q >= |s| || LowerChar(s[q]) != c) ==> !PrefixAtIgnoreCase(s, q, w)
  {
    assert [c][1..] == [];
  }

  /** Spacing, then a keyword in any case, is cut with what StripSeparator cuts from the rest. */
  lemma StripKeyword(ws: string, kw: string, tail: string)
    requires forall i :: 0 <= i < |ws| ==> IsSpace(ws[i])
    requires IsListKeyword(Lower(kw))
    requires Lower(kw) == "field" || Lower(kw) == "attribute" ==> tail == [] || LowerChar(tail[0]) != 's'
    ensures StripFieldListPrefix(ws + kw + tail) == StripSeparator(tail)
  {
    var list := ws + kw + tail;
    var i := |ws|;
    var k := i + |kw|;
    assert Lower(kw)[0] == LowerChar(kw[0]);
    assert list[i] == kw[0];
    SpanAt(list, 0, IsSpace, i);
    assert list[i..k] == kw;
    assert k < |list| ==> list[k] == tail[0];
    KeywordEndOf(list, i, k);
    assert list[k..] == tail;
  }

  /** Spacing, at most one separator and spacing are cut from the rest of the list. When the
      separator is absent the rest must not start with one, since the pattern would take it. */
  lemma StripSeparatorOf(sp1: string, sep: string, sp2: string, rest: string)
    requires forall i :: 0 <= i < |sp1| ==> IsSpace(sp1[i])
    requires forall i :: 0 <= i < |sp2| ==> IsSpace(sp2[i])
    requires sep == [] || sep == [':'] || sep == ['='] || sep == ['-']
    requires rest == [] || !IsSpace(rest[0])
    requires sep == [] && rest != [] ==> rest[0] != ':' && rest[0] != '=' && rest[0] != '-'
    ensures StripSeparator(sp1 + sep + sp2 + rest) == rest
  {
    if sep == [] {
      assert sp1 + sep == sp1;
      var sp := sp1 + sp2;
      assert forall x :: 0 <= x < |sp| ==> IsSpace(sp[x]);
      assert sp1 + sp2 + rest == sp + rest;
      StripSpacing(sp, rest);
    } else {
      StripOneSeparator(sp1, sep[0], sp2, rest);
    }
  }

  /** With no separator only the spacing is cut. */
  lemma StripSpacing(sp: string, rest: string)
    requires forall i :: 0 <= i < |sp| ==> IsSpace(sp[i])
    requires rest == [] || (!IsSpace(rest[0]) && rest[0] != ':' && rest[0] != '=' && rest[0] != '-')
    ensures StripSeparator(sp + rest) == rest
  {
    var t := sp + rest;
    var e := |sp|;
    assert t[e..] == rest;
    assert e < |t| ==> t[e] == rest[0];
    SpanAt(t, 0, IsSpace, e);
    SpanAt(t, e, IsSpace, e);
  }

  /** With a separator, the spacing on both sides of it is cut too. */
  lemma StripOneSeparator(sp1: string, c: char, sp2: string, rest: string)
    requires forall i :: 0 <= i < |sp1| ==> IsSpace(sp1[i])
    requires forall i :: 0 <= i < |sp2| ==> IsSpace(sp2[i])
    requires c == ':' || c == '=' || c == '-'
    requires rest == [] || !IsSpace(rest[0])
    ensures StripSeparator(sp1 + [c] + sp2 + rest) == rest
  {
    var t := sp1 + [c] + sp2 + rest;
    var j := |sp1|;
    var e := j + 1 + |sp2|;
    assert t[j] == c;
    assert t[e..] == rest;
    assert e < |t| ==> t[e] == rest[0];
    assert forall x :: 0 <= x < j ==> t[x] == sp1[x];
    SpanAt(t, 0, IsSpace, j);
    assert forall x :: j + 1 <= x < e ==> t[x] == sp2[x - j - 1];
    SpanAt(t, j + 1, IsSpace, e);
  }

  /** What the keyword runs into is not an 's' when something separates it from the rest. */
  lemma TailHead(sp1: string, sep: string, sp2: string, rest: string)
    requires forall i :: 0 <= i < |sp1| ==> IsSpace(sp1[i])
    requires forall i :: 0 <= i < |sp2| ==> IsSpace(sp2[i])
    requires sep == [] || sep == [':'] || sep == ['='] || sep == ['-']
    requires sp1 != [] || sep != [] || sp2 != [] || rest == [] || LowerChar(rest[0]) != 's'
    ensures var tail := sp1 + sep + sp2 + rest; tail == [] || LowerChar(tail[0]) != 's'
  {
    var tail := sp1 + sep + sp2 + rest;
    if sp1 != [] { assert tail[0] == sp1[0]; }
    else if sep != [] { assert tail[0] == sep[0]; }
    else if sp2 != [] { assert tail[0] == sp2[0]; }
    else { assert tail == rest; }
  }

  /** stripFieldListPrefix on a list that starts with spacing, a keyword in any case, spacing, at
      most one ':', '=' or '-' and more spacing: exactly that prefix is removed. */
  lemma StripKeywordPrefix(ws: string, kw: string, sp1: string, sep: string, sp2: string, rest: string)
    requires forall i :: 0 <= i < |ws| ==> IsSpace(ws[i])
    requires forall i :: 0 <= i < |sp1| ==> IsSpace(sp1[i])
    requires forall i :: 0 <= i < |sp2| ==> IsSpace(sp2[i])
    requires IsListKeyword(Lower(kw))
    requires sep == [] || sep == [':'] || sep == ['='] || sep == ['-']
    requires rest == [] || !IsSpace(rest[0])
    requires sep == [] && rest != [] ==> rest[0] != ':' && rest[0] != '=' && rest[0] != '-'
    requires Lower(kw) == "field" || Lower(kw) == "attribute" ==>
               sp1 != [] || sep != [] || sp2 != [] || rest == [] || LowerChar(rest[0]) != 's'
    ensures StripFieldListPrefix(ws + kw + (sp1 + sep + sp2 + rest)) == rest
  {
    if Lower(kw) == "field" || Lower(kw) == "attribute" {
      TailHead(sp1, sep, sp2, rest);
    }
    StripKeyword(ws, kw, sp1 + sep + sp2 + rest);
    StripSeparatorOf(sp1, sep, sp2, rest);
  }

  /** A piece trimmed, unless nothing is left of it. */
  function NonEmptyTrim(piece: string): (r: Option<string>)
    ensures r.Some? ==> r.value != [] && Trim(r.value) == r.value && forall x :: x in r.value ==> x in piece
  {
    var t := Trim(piece);
    TrimIdempotent(piece);
    InTrim(piece);
    if t == [] then None else Some(t)
  }

  /** splitFieldList: " and " counts as a comma; parts are trimmed and empty ones dropped
      (String.split's dropping of trailing empty pieces is subsumed). */
  function FieldListParts(list: string): seq<string> {
    Present(SplitOn(ReplaceAll(list, " and ", ","), ','), NonEmptyTrim)
  }

  /** The parts of a field list are non-empty, trimmed and free of commas. */
  lemma FieldListPartsShape(list: string)
    ensures forall i :: 0 <= i < |FieldListParts(list)| ==>
              FieldListParts(list)[i] != [] && Trim(FieldListParts(list)[i]) == FieldListParts(list)[i]
              && ',' !in FieldListParts(list)[i]
  {
    var pieces := SplitOn(ReplaceAll(list, " and ", ","), ',');
    PresentFrom(pieces, NonEmptyTrim);
    forall i | 0 <= i < |FieldListParts(list)|
      ensures ',' !in FieldListParts(list)[i]
    {
      var j :| 0 <= j < |pieces| && NonEmptyTrim(pieces[j]) == Some(FieldListParts(list)[i]);
    }
  }

  method SplitFieldList(list: string) returns (out: seq<string>)
    ensures out == FieldListParts(list)
  {
    var normalized := ReplaceAll(list, " and ", ",");
    var parts := SplitOn(normalized, ',');
    out := CollectPresent(parts, NonEmptyTrim);
  }

  // ---------------------------------------------------------------------------------------------
  // One token of a field list

  /** The paren pattern on trimmed text: name, then "(Type)", then a tail on the same line. */
  function ParenTyped(c: string): (r: Option<ParsedField>)
    ensures r.Some? ==> r.value.name != [] && r.value.typeHint.Some?
  {
    if c == [] || !IsLetter(c[0]) then None
    else
      var a := Span(c, 0, IsWordChar);
      var b := SpaceEnd(c, a);
      if b == |c| || c[b] != '(' then None
      else
        var d := SpaceEnd(c, b + 1);
        if d == |c| || !IsLetter(c[d]) then None
        else
          var e := Span(c, d, IsAlnum);
          var f := SpaceEnd(c, e);
          if f == |c| || c[f] != ')' then None
          else
            var g := SpaceEnd(c, f + 1);
            if LineBreakIn(c, g, |c|) then None
            else Some(ParsedField(c[..a], Some(c[d..e]), ContainsNullable(c[g..]), ContainsUnique(c[g..])))
  }

  /** The typed pattern on trimmed text: name, ':' or '-', a type, then a tail on the same line. */
  function ColonTyped(c: string): (r: Option<ParsedField>)
    ensures r.Some? ==> r.value.name != [] && r.value.typeHint.Some?
  {
    if c == [] || !IsLetter(c[0]) then None
    else
      var a := Span(c, 0, IsWordChar);
      var b := SpaceEnd(c, a);
      if b == |c| || (c[b] != ':' && c[b] != '-') then None
      else
        var d := SpaceEnd(c, b + 1);
        if d == |c| || !IsLetter(c[d]) then None
        else
          var e := Span(c, d, IsAlnum);
          var g := SpaceEnd(c, e);
          if LineBreakIn(c, g, |c|) then None
          else Some(ParsedField(c[..a], Some(c[d..e]), ContainsNullable(c[g..]), ContainsUnique(c[g..])))
  }

  /** The length of a whole word "optional", "nullable" or "unique" (any case) at i, or 0. */
  function ModifierAt(s: string, i: nat): nat {
    if !WordStart(s, i) then 0
    else if PrefixAtIgnoreCase(s, i, "optional") && WordEnd(s, i + 8) then 8
    else if PrefixAtIgnoreCase(s, i, "nullable") && WordEnd(s, i + 8) then 8
    else if PrefixAtIgnoreCase(s, i, "unique") && WordEnd(s, i + 6) then 6
    else 0
  }

  /** The text from i with every whole modifier word removed. */
  function RemoveModifiers(s: string, i: nat): string
    decreases |s| - i
  {
    if i >= |s| then []
    else
      var w := ModifierAt(s, i);
      if w > 0 then RemoveModifiers(s, i + w) else [s[i]] + RemoveModifiers(s, i + 1)
  }

  /** The name of an untyped token: the modifier words and parentheses removed, then trimmed. */
  function BareName(cleaned: string): string {
    Trim(Filter(Trim(RemoveModifiers(cleaned, 0)), NotParen))
  }

  /** parseSimpleFieldToken. */
  function ParseSimpleFieldToken(token: string): (r: Option<ParsedField>)
    ensures r.Some? ==> r.value.name != []
  {
    var cleaned := Cleaned(token);
    if cleaned == [] then None
    else
      var paren := ParenTyped(cleaned);
      if paren.Some? then paren
      else
        var typed := ColonTyped(cleaned);
        if typed.Some? then typed
        else
          var lower := Lower(cleaned);
          var nameOnly := BareName(cleaned);
          if nameOnly == [] then None
          else Some(ParsedField(nameOnly, None, ContainsNullable(lower), ContainsUnique(lower)))
  }

  /** A token without its dots, trimmed: the text the patterns of parseSimpleFieldToken see. */
  function Cleaned(token: string): string { Trim(Filter(token, NotDot)) }

  /** Trimming keeps only characters of the text. */
  lemma InTrim(s: string)
    ensures forall x :: x in Trim(s) ==> x in s
  {
    var k :| TrimmedAt(s, Trim(s), k);
    forall x | x in Trim(s) ensures x in s {
      var i :| 0 <= i < |Trim(s)| && Trim(s)[i] == x;
      assert s[k + i] == x;
    }
  }

  /** An untyped field's name is trimmed and free of dots and parentheses; it is nullable exactly
      when the cleaned token mentions "optional" or "null", and unique exactly when it mentions
      "unique". */
  lemma UntypedField(token: string)
    requires ParseSimpleFieldToken(token).Some? && ParseSimpleFieldToken(token).value.typeHint.None?
    ensures var f := ParseSimpleFieldToken(token).value;
            && Trim(f.name) == f.name && '(' !in f.name && ')' !in f.name && '.' !in f.name
            && (f.nullable <==> Contains(Lower(Cleaned(token)), "optional") || Contains(Lower(Cleaned(token)), "null"))
            && (f.unique <==> Contains(Lower(Cleaned(token)), "unique"))
  {
    var cleaned := Cleaned(token);
    var removed := RemoveModifiers(cleaned, 0);
    var inner := Filter(Trim(removed), NotParen);
    TrimIdempotent(inner);
    InTrim(inner);
    InTrim(removed);
    InTrim(Filter(token, NotDot));
    forall x | x in removed ensures x in cleaned {
      RemoveModifiersKeeps(cleaned, 0, x);
    }
    ModifierTests(Lower(cleaned));
    LowerIdempotent(cleaned);
  }

  /** Removing modifier words keeps only characters of the text. */
  lemma {:induction false} RemoveModifiersKeeps(s: string, i: nat, x: char)
    requires x in RemoveModifiers(s, i)
    ensures x in s
    decreases |s| - i
  {
    RemoveModifiersInRange(s, i, x);
    var w := ModifierAt(s, i);
    if w > 0 {
      RemoveModifiersSkip(s, i, x);
      RemoveModifiersKeeps(s, i + w, x);
    } else if x != s[i] {
      RemoveModifiersKeep(s, i, x);
      RemoveModifiersKeeps(s, i + 1, x);
    }
  }

  lemma RemoveModifiersInRange(s: string, i: nat, x: char)
    requires x in RemoveModifiers(s, i)
    ensures i < |s|
  {
  }

  lemma RemoveModifiersSkip(s: string, i: nat, x: char)
    requires x in RemoveModifiers(s, i) && i < |s| && ModifierAt(s, i) > 0
    ensures x in RemoveModifiers(s, i + ModifierAt(s, i))
  {
  }

  lemma RemoveModifiersKeep(s: string, i: nat, x: char)
    requires x in RemoveModifiers(s, i) && i < |s| && ModifierAt(s, i) == 0 && x != s[i]
    ensures x in RemoveModifiers(s, i + 1)
  {
  }

  /** The fields of one with-clause list: its tokens that parse, in order. */
  function ListFields(list: string): seq<ParsedField> {
    if IsBlank(list) then [] else Present(FieldListParts(StripFieldListPrefix(list)), ParseSimpleFieldToken)
  }

  /** The body of extractFields' with-clause loop. */
  method ParseList(list: string) returns (fields: seq<ParsedField>)
    ensures fields == ListFields(list)
  {
    if IsBlank(list) {
      return [];
    }
    var parts := SplitFieldList(StripFieldListPrefix(list));
    fields := CollectPresent(parts, ParseSimpleFieldToken);
  }

  // ---------------------------------------------------------------------------------------------
  // extractFields: bullet lines, then with-clauses, then inline "name(Type)" mentions

  /** BULLET_FIELD with the marker '-' or '*' at q: a name, then ':' or '-', then the rest. */
  function BulletAt(s: string, q: nat): (r: Option<Found>)
    ensures r.Some? ==> q < r.value.end <= |s| && r.value.field.name != [] && IsLetter(r.value.field.name[0])
  {
    if q >= |s| || (s[q] != '-' && s[q] != '*') || !LineStart(s, q) then None
    else
      var a := SpaceEnd(s, q + 1);
      if a == |s| || !IsLetter(s[a]) then None
      else
        var b := Span(s, a, IsWordChar);
        var c := SpaceEnd(s, b);
        if c == |s| || (s[c] != ':' && s[c] != '-') then None
        else Some(BulletRest(s, s[a..b], c + 1))
  }

  /** The rest of a bullet line after its separator: an optional type, then the rest of the line
      as the tail. The spacing before the type and before the tail may cross line ends, so the
      tail can be the next line of the input. */
  function BulletRest(s: string, name: string, i: nat): (r: Found)
    requires i <= |s|
    ensures i <= r.end <= |s| && r.field.name == name
  {
    var d := SpaceEnd(s, i);
    var t := if d < |s| && IsLetter(s[d]) then Span(s, d, IsAlnum) else d;
    var tailStart := SpaceEnd(s, t);
    var tailEnd := Span(s, tailStart, NotLineBreak);
    var tail := s[tailStart..tailEnd];
    var typeHint := if t > d then Some(s[d..t]) else None;
    Found(ParsedField(name, typeHint, ContainsNullable(tail), ContainsUnique(tail)), tailEnd)
  }

  /** INLINE_TYPED with the name at q: a word, then "(Type)" with optional spacing. */
  function InlineAt(s: string, q: nat): (r: Option<Found>)
    ensures r.Some? ==> q < r.value.end <= |s|
    ensures r.Some? ==> r.value.field.name != [] && IsLetter(r.value.field.name[0]) && r.value.field.typeHint.Some?
                        && !r.value.field.nullable && !r.value.field.unique
  {
    if q >= |s| || !WordStart(s, q) || !IsLetter(s[q]) then None
    else
      var a := Span(s, q, IsWordChar);
      var b := SpaceEnd(s, a);
      if b == |s| || s[b] != '(' then None
      else
        var c := SpaceEnd(s, b + 1);
        if c == |s| || !IsLetter(s[c]) then None
        else
          var d := Span(s, c, IsAlnum);
          var e := SpaceEnd(s, d);
          if e == |s| || s[e] != ')' then None
          else Some(Found(ParsedField(s[q..a], Some(s[c..d]), false, false), e + 1))
  }

  function BulletMatcher(s: string): nat -> Option<Found> { (q: nat) => BulletAt(s, q) }
  function InlineMatcher(s: string): nat -> Option<Found> { (q: nat) => InlineAt(s, q) }
  function WithMatcher(s: string): nat -> Option<WithMatch> { (q: nat) => WithAt(s, q) }

  function FoundEnd(m: Found): nat { m.end }
  function FoundField(m: Found): seq<ParsedField> { [m.field] }

  function ListEnd(m: WithMatch): nat { m.end }
  /** The fields of the list a with-clause match captures. */
  function FieldsOfMatch(m: WithMatch): seq<ParsedField> { ListFields(m.list) }

  /** The fields of the bullet lines of s. */
  function BulletFields(s: string): seq<ParsedField> {
    Matches(|s|, 0, BulletMatcher(s), FoundEnd, FoundField)
  }

  /** The fields of the with-clauses of s. */
  function WithFields(s: string): seq<ParsedField> {
    Matches(|s|, 0, WithMatcher(s), ListEnd, FieldsOfMatch)
  }

  /** The inline "name(Type)" fields of s. */
  function InlineFields(s: string): seq<ParsedField> {
    Matches(|s|, 0, InlineMatcher(s), FoundEnd, FoundField)
  }

  /** extractFields. */
  function Fields(request: Option<string>): seq<ParsedField> {
    if IsNullOrBlank(request) then []
    else BulletFields(request.value) + WithFields(request.value) + InlineFields(request.value)
  }

  /** extractFields' with-clause loop: each non-blank list is split and its tokens parsed. */
  method CollectWithFields(n: nat, at: nat -> Option<WithMatch>) returns (out: seq<ParsedField>)
    requires forall q: nat :: at(q).Some? ==> q < at(q).value.end <= n
    ensures out == Matches(n, 0, at, ListEnd, FieldsOfMatch)
  {
    out := [];
    var from := 0;
    var m := Find(from, n, at);
    while m.Some?
      invariant m == Find(from, n, at)
      invariant out + Matches(n, from, at, ListEnd, FieldsOfMatch) == Matches(n, 0, at, ListEnd, FieldsOfMatch)
      decreases n - from
    {
      var found := m.value.1;
      var parsed := ParseList(found.list);
      CollectStep(out, parsed, n, from, at, ListEnd, FieldsOfMatch);
      out := out + parsed;
      from := found.end;
      m := Find(from, n, at);
    }
  }

  method ExtractFields(request: Option<string>) returns (out: seq<ParsedField>)
    ensures out == Fields(request)
  {
    if request.None? || IsBlank(request.value) {
      return [];
    }
    var s := request.value;
    var bullets := CollectMatches(|s|, BulletMatcher(s), FoundEnd, FoundField);
    var withs := CollectWithFields(|s|, WithMatcher(s));
    var inline := CollectMatches(|s|, InlineMatcher(s), FoundEnd, FoundField);
    out := bullets + withs + inline;
  }

  // ---------------------------------------------------------------------------------------------
  // A with-clause that lists plain names

  /** A plain field name: letters only, and not itself a modifier word. */
  predicate PlainName(t: string) {
    && t != []
    && (forall i :: 0 <= i < |t| ==> IsLetter(t[i]))
    && Lower(t) != "optional" && Lower(t) != "nullable" && Lower(t) != "unique"
  }

  /** The field an untyped plain name parses to. */
  function PlainField(t: string): ParsedField {
    ParsedField(t, None, ContainsNullable(t), ContainsUnique(t))
  }

  /** Filtering with a test every character passes changes nothing. */
  lemma {:induction false} FilterAll(s: string, keep: char -> bool)
    requires forall i :: 0 <= i < |s| ==> keep(s[i])
    ensures Filter(s, keep) == s
    decreases |s|
  {
    if s != [] {
      FilterAll(s[1..], keep);
    }
  }

  /** A text with no trimmable character at either end is its own trim. */
  lemma TrimUnpadded(t: string)
    requires t != [] && !IsTrimmable(t[0]) && !IsTrimmable(t[|t| - 1])
    ensures Trim(t) == t
  {
  }

  /** A plain name contains no modifier word, so removing them keeps it whole. */
  lemma {:induction false} RemoveModifiersPlain(t: string, i: nat)
    requires PlainName(t) && i <= |t|
    ensures RemoveModifiers(t, i) == t[i..]
    decreases |t| - i
  {
    if i < |t| {
      NoModifierInPlain(t, i);
      RemoveModifiersPlain(t, i + 1);
      assert t[i..] == [t[i]] + t[i + 1..];
    }
  }

  /** No modifier word starts inside a plain name. */
  lemma NoModifierInPlain(t: string, i: nat)
    requires PlainName(t) && i < |t|
    ensures ModifierAt(t, i) == 0
  {
    if i == 0 {
      NoModifierAtStart(t, "optional");
      NoModifierAtStart(t, "nullable");
      NoModifierAtStart(t, "unique");
    } else {
      assert IsWordChar(t[i - 1]);
    }
  }

  /** A word w is found whole at the start of a letters-only text only when it is all of it. */
  lemma NoModifierAtStart(t: string, w: string)
    requires PlainName(t) && Lower(t) != w
    ensures !(PrefixAtIgnoreCase(t, 0, w) && WordEnd(t, |w|))
  {
    PrefixAtIgnoreCaseIff(t, 0, w);
    if |w| < |t| {
      assert IsWordChar(t[|w|]);
    } else if |w| == |t| {
      assert t[0..|w|] == t;
    }
  }

  /** A plain name is its own cleaned token. */
  lemma CleanedPlain(t: string)
    requires PlainName(t)
    ensures Cleaned(t) == t
  {
    FilterAll(t, NotDot);
    TrimUnpadded(t);
  }

  /** A plain name has neither the "name(Type)" nor the "name: Type" shape. */
  lemma UntypedPlain(t: string)
    requires PlainName(t)
    ensures ParenTyped(t) == None && ColonTyped(t) == None
  {
    SpanAt(t, 0, IsWordChar, |t|);
    SpanAt(t, |t|, IsSpace, |t|);
  }

  /** A plain name is its own bare name. */
  lemma BareNamePlain(t: string)
    requires PlainName(t)
    ensures BareName(t) == t
  {
    RemoveModifiersPlain(t, 0);
    TrimUnpadded(t);
    FilterAll(t, NotParen);
  }

  /** A plain name parses as an untyped field of that name. */
  lemma PlainToken(t: string)
    requires PlainName(t)
    ensures ParseSimpleFieldToken(t) == Some(PlainField(t))
  {
    CleanedPlain(t);
    UntypedPlain(t);
    BareNamePlain(t);
    LowerIdempotent(t);
  }

  /** Plain names joined by ", ": letters, commas and spaces, every space right after a comma,
      and a letter first. */
  lemma {:induction false} PlainJoinShape(names: seq<string>)
    requires names != [] && forall i :: 0 <= i < |names| ==> PlainName(names[i])
    ensures var j := Join(names, ", ");
            && j != [] && IsLetter(j[0])
            && (forall k :: 0 <= k < |j| ==> IsLetter(j[k]) || j[k] == ',' || j[k] == ' ')
            && (forall k :: 0 <= k < |j| && j[k] == ' ' ==> 0 < k && j[k - 1] == ',')
    decreases |names|
  {
    var h := names[0];
    if |names| > 1 {
      var rest := Join(names[1..], ", ");
      PlainJoinShape(names[1..]);
      var j := h + ", " + rest;
      assert Join(names, ", ") == j;
      forall k | 0 <= k < |j|
        ensures IsLetter(j[k]) || j[k] == ',' || j[k] == ' '
        ensures j[k] == ' ' ==> 0 < k && j[k - 1] == ','
      {
        if k < |h| {
          assert j[k] == h[k];
        } else if k >= |h| + 2 {
          assert j[k] == rest[k - |h| - 2];
          if k > |h| + 2 { assert j[k - 1] == rest[k - |h| - 3]; }
        }
      }
    }
  }

  /** A text in which no space follows a 'd' holds no " and ", so splitFieldList's replacement
      leaves it as it is. */
  lemma {:induction false} ReplaceAndAbsent(s: string)
    requires forall k :: 0 < k < |s| && s[k] == ' ' ==> s[k - 1] != 'd'
    ensures ReplaceAll(s, " and ", ",") == s
    decreases |s|
  {
    if |s| >= 5 {
      assert s[..5][3] == s[3] && s[..5][4] == s[4];
      assert s[..5] != " and ";
      assert forall k :: 0 < k < |s[1..]| ==> s[1..][k] == s[k + 1] && s[1..][k - 1] == s[k];
      ReplaceAndAbsent(s[1..]);
      assert s == [s[0]] + s[1..];
    }
  }

  /** Plain names joined by ", " never contain " and ". */
  lemma NoAndInPlainJoin(names: seq<string>)
    requires names != [] && forall i :: 0 <= i < |names| ==> PlainName(names[i])
    ensures ReplaceAll(Join(names, ", "), " and ", ",") == Join(names, ", ")
  {
    PlainJoinShape(names);
    ReplaceAndAbsent(Join(names, ", "));
  }

  /** Splitting at the first comma: the comma-free head, then the pieces of what follows. */
  lemma SplitOnStep(h: string, rest: string)
    requires ',' !in h
    ensures SplitOn(h + "," + rest, ',') == [h] + SplitOn(rest, ',')
  {
    var s := h + "," + rest;
    assert s[|h|] == ',' && s[..|h|] == h;
    FirstIndexAt(s, ',', |h|);
    assert s[|h| + 1..] == rest;
  }

  /** The first occurrence of c is at k when c is at k and not before it. */
  lemma FirstIndexAt(s: string, c: char, k: nat)
    requires k < |s| && s[k] == c && c !in s[..k]
    ensures FirstIndex(s, c) == k
  {
    var f := FirstIndex(s, c);
    assert forall j :: 0 <= j < k ==> s[..k][j] == s[j];
    assert forall j :: 0 <= j < f ==> s[..f][j] == s[j];
  }

  /** Splitting comma-free parts joined by ", " at the commas gives the first part, then every
      other part behind one space. */
  lemma {:induction false} SplitJoined(pre: string, names: seq<string>)
    requires ',' !in pre && names != [] && forall i :: 0 <= i < |names| ==> ',' !in names[i]
    ensures var r := SplitOn(pre + Join(names, ", "), ',');
            && |r| == |names| && r[0] == pre + names[0]
            && forall i :: 1 <= i < |names| ==> r[i] == " " + names[i]
    decreases |names|
  {
    var h := pre + names[0];
    CharNotInAppend(pre, names[0], ',');
    if |names| == 1 {
      assert pre + Join(names, ", ") == h;
    } else {
      var rest := Join(names[1..], ", ");
      JoinRegroup(pre, names[0], rest);
      SplitOnStep(h, " " + rest);
      SplitJoined(" ", names[1..]);
      ShiftParts(SplitOn(pre + Join(names, ", "), ','), h, SplitOn(" " + rest, ','), names);
    }
  }

  /** The first part, then the parts of the other names behind one space each. */
  lemma ShiftParts(r: seq<string>, h: string, tail: seq<string>, names: seq<string>)
    requires |names| >= 2 && r == [h] + tail && |tail| == |names| - 1
    requires forall i :: 0 <= i < |tail| ==> tail[i] == " " + names[1..][i]
    ensures |r| == |names| && r[0] == h && forall i :: 1 <= i < |names| ==> r[i] == " " + names[i]
  {
    forall i | 1 <= i < |names| ensures r[i] == " " + names[i] {
      assert r[i] == tail[i - 1] && names[1..][i - 1] == names[i];
    }
  }

  lemma CharNotInAppend(a: string, b: string, c: char)
    requires c !in a && c !in b
    ensures c !in a + b
  {
  }

  /** The first part and the ", " after it, regrouped around the comma. */
  lemma JoinRegroup(pre: string, h: string, rest: string)
    ensures pre + (h + ", " + rest) == pre + h + "," + (" " + rest)
  {
  }

  /** When f gives a result for every element, Present keeps them all, in order. */
  lemma {:induction false} PresentAll<T, U>(xs: seq<T>, f: T -> Option<U>)
    requires forall i :: 0 <= i < |xs| ==> f(xs[i]).Some?
    ensures |Present(xs, f)| == |xs| && forall i :: 0 <= i < |xs| ==> f(xs[i]) == Some(Present(xs, f)[i])
    decreases |xs|
  {
    if xs != [] {
      PresentAll(xs[1..], f);
      var rest := Present(xs[1..], f);
      assert Present(xs, f) == [f(xs[0]).value] + rest;
      forall i | 1 <= i < |xs| ensures f(xs[i]) == Some(Present(xs, f)[i]) {
        assert xs[1..][i - 1] == xs[i];
      }
    }
  }

  /** When f gives ys[i] for every xs[i], Present gives ys. */
  lemma {:induction false} PresentExactly<T, U>(xs: seq<T>, f: T -> Option<U>, ys: seq<U>)
    requires |xs| == |ys| && forall i :: 0 <= i < |xs| ==> f(xs[i]) == Some(ys[i])
    ensures Present(xs, f) == ys
    decreases |xs|
  {
    if xs != [] {
      assert forall i :: 0 <= i < |xs[1..]| ==> xs[1..][i] == xs[i + 1] && ys[1..][i] == ys[i + 1];
      PresentExactly(xs[1..], f, ys[1..]);
      assert ys == [ys[0]] + ys[1..];
    }
  }

  /** The pieces of a split plain list trim to the names. */
  lemma PlainPieces(names: seq<string>)
    requires names != [] && forall i :: 0 <= i < |names| ==> PlainName(names[i])
    ensures FieldListParts(Join(names, ", ")) == names
  {
    NoAndInPlainJoin(names);
    PlainSplit(names);
    PresentExactly(SplitOn(Join(names, ", "), ','), NonEmptyTrim, names);
  }

  /** Each piece of a split plain list trims to its name. */
  lemma PlainSplit(names: seq<string>)
    requires names != [] && forall i :: 0 <= i < |names| ==> PlainName(names[i])
    ensures var pieces := SplitOn(Join(names, ", "), ',');
            |pieces| == |names| && forall i :: 0 <= i < |names| ==> NonEmptyTrim(pieces[i]) == Some(names[i])
  {
    var j := Join(names, ", ");
    forall i | 0 <= i < |names| ensures ',' !in names[i] {
      PlainPiece(names[i]);
    }
    assert "" + j == j;
    SplitJoined("", names);
    var pieces := SplitOn(j, ',');
    forall i | 0 <= i < |names| ensures NonEmptyTrim(pieces[i]) == Some(names[i]) {
      PlainPiece(names[i]);
      assert pieces[i] == names[i] || pieces[i] == " " + names[i];
    }
  }

  /** A plain name holds no comma, and it is what remains of it, or of it behind a space, after
      trimming. */
  lemma PlainPiece(t: string)
    requires PlainName(t)
    ensures ',' !in t
    ensures NonEmptyTrim(t) == Some(t) && NonEmptyTrim(" " + t) == Some(t)
  {
    TrimUnpadded(t);
    assert (" " + t)[1..] == t;
    assert TrimStart(" " + t) == TrimStart(t);
  }

  /** The list "fields: " followed by plain names joined by ", " yields one untyped field per
      name, in order. */
  lemma PlainListFields(names: seq<string>)
    requires names != [] && forall i :: 0 <= i < |names| ==> PlainName(names[i])
    ensures var r := ListFields("fields: " + Join(names, ", "));
            |r| == |names| && forall i :: 0 <= i < |names| ==> r[i] == PlainField(names[i])
  {
    var j := Join(names, ", ");
    PlainJoinShape(names);
    StripFieldsColon(j);
    PlainPieces(names);
    forall i | 0 <= i < |names| ensures ParseSimpleFieldToken(names[i]) == Some(PlainField(names[i])) {
      PlainToken(names[i]);
    }
    PresentAll(names, ParseSimpleFieldToken);
  }

  /** "fields: " before a list that starts with a letter is stripped, and the list is not blank. */
  lemma StripFieldsColon(j: string)
    requires j != [] && IsLetter(j[0])
    ensures !IsBlank("fields: " + j) && StripFieldListPrefix("fields: " + j) == j
  {
    assert ("fields: " + j)[0] == 'f';
    FieldsColonParts(j);
    StripFieldsColonParts(j);
  }

  lemma FieldsColonParts(j: string)
    ensures "fields: " + j == [] + "fields" + ([] + [':'] + [' '] + j)
  {
  }

  /** The keyword "fields", a colon and a space before text that starts with a letter. */
  lemma StripFieldsColonParts(j: string)
    requires j != [] && IsLetter(j[0])
    ensures StripFieldListPrefix([] + "fields" + ([] + [':'] + [' '] + j)) == j
  {
    assert Lower("fields") == "fields";
    StripKeywordPrefix([], "fields", [], [':'], [' '], j);
  }

  /** A text without '-' and '*' has no bullet line. */
  lemma NoBullets(s: string)
    requires forall k :: 0 <= k < |s| ==> s[k] != '-' && s[k] != '*'
    ensures BulletFields(s) == []
  {
    FindNone(0, |s|, BulletMatcher(s));
  }

  /** A text without '(' has no inline "name(Type)" field. */
  lemma NoInline(s: string)
    requires forall k :: 0 <= k < |s| ==> s[k] != '('
    ensures InlineFields(s) == []
  {
    forall q: nat ensures InlineAt(s, q).None? {
      if q < |s| && WordStart(s, q) && IsLetter(s[q]) {
        var b := SpaceEnd(s, Span(s, q, IsWordChar));
        assert b < |s| ==> s[b] != '(';
      }
    }
    FindNone(0, |s|, InlineMatcher(s));
  }

  /** No "with" starts in text made of letters and spaces that does not contain the word, nor at
      the space after it. */
  lemma NoWithBefore(s: string, pre: string, q: nat)
    requires |pre| < |s| && s[..|pre|] == pre && s[|pre|] == ' ' && q <= |pre|
    requires forall p :: 0 <= p <= |pre| ==> !PrefixAtIgnoreCase(pre, p, "with")
    ensures WithAt(s, q).None?
  {
    PrefixAtIgnoreCaseIff(s, q, "with");
    PrefixAtIgnoreCaseIff(pre, q, "with");
    if q + 4 <= |pre| {
      assert s[q..q + 4] == pre[q..q + 4];
    } else if q + 4 <= |s| {
      var m := |pre| - q;
      assert s[q..q + 4][m] == ' ';
      assert Lower(s[q..q + 4])[m] == ' ';
    }
  }

  /** " with " after such text, then a list of characters of [^\n\r.] that does not start with
      spacing, then '.': the match starts at "with" and captures exactly the list. */
  lemma WithClauseAt(pre: string, list: string)
    requires list != [] && !IsSpace(list[0])
    requires forall k :: 0 <= k < |list| ==> NotListStop(list[k])
    ensures var s := pre + " with " + list + ".";
            WithAt(s, |pre| + 1) == Some(WithMatch(|pre| + 1, list, |s| - 1))
  {
    var h := pre + " with ";
    var s := h + list + ".";
    var q := |pre| + 1;
    var e := |h|;
    assert s[q - 1] == ' ' && s[q..q + 4] == "with" && s[q + 4] == ' ';
    assert Lower("with") == "with";
    PrefixAtIgnoreCaseIff(s, q, "with");
    assert s[e] == list[0];
    SpanAt(s, q + 4, IsSpace, e);
    assert forall k :: e <= k < |s| - 1 ==> s[k] == list[k - e];
    assert s[|s| - 1] == '.';
    SpanAt(s, e, NotListStop, |s| - 1);
    assert s[e..|s| - 1] == list;
  }

  /** No with-clause starts in such text or at the space after it. */
  lemma NoWithBeforeClause(pre: string, list: string)
    requires forall p :: 0 <= p <= |pre| ==> !PrefixAtIgnoreCase(pre, p, "with")
    ensures var s := pre + " with " + list + ".";
            forall p :: 0 <= p < |pre| + 1 ==> WithAt(s, p).None?
  {
    var s := pre + " with " + list + ".";
    assert s[..|pre|] == pre && s[|pre|] == ' ';
    forall p | 0 <= p < |pre| + 1 ensures WithAt(s, p).None? {
      NoWithBefore(s, pre, p);
    }
  }

  /** No with-clause starts at the last character of a text. */
  lemma NoWithAtLast(s: string)
    requires s != []
    ensures forall p :: |s| - 1 <= p < |s| ==> WithAt(s, p).None?
  {
    PrefixAtIgnoreCaseIff(s, |s| - 1, "with");
  }

  /** The with-clauses of such a request: the one list it holds. */
  lemma OneWithClause(pre: string, list: string)
    requires forall p :: 0 <= p <= |pre| ==> !PrefixAtIgnoreCase(pre, p, "with")
    requires list != [] && !IsSpace(list[0])
    requires forall k :: 0 <= k < |list| ==> NotListStop(list[k])
    ensures WithFields(pre + " with " + list + ".") == ListFields(list)
  {
    var s := pre + " with " + list + ".";
    NoWithBeforeClause(pre, list);
    WithClauseAt(pre, list);
    NoWithAtLast(s);
    WithFieldsOnce(s, |pre| + 1, WithMatch(|pre| + 1, list, |s| - 1));
  }

  /** A text where the with-clause pattern matches at q only, before m ends, has the fields of
      m's list. */
  lemma WithFieldsOnce(s: string, q: nat, m: WithMatch)
    requires forall p :: 0 <= p < q ==> WithAt(s, p).None?
    requires WithAt(s, q) == Some(m)
    requires forall p :: m.end <= p < |s| ==> WithAt(s, p).None?
    ensures WithFields(s) == ListFields(m.list)
  {
    MatchesOnceAt(|s|, WithMatcher(s), ListEnd, FieldsOfMatch, q, m);
  }

  /** "fields: " before plain names joined by ", " is a list the with-clause captures whole, and
      holds no bullet or inline-field character. */
  lemma PlainListChars(names: seq<string>)
    requires names != [] && forall i :: 0 <= i < |names| ==> PlainName(names[i])
    ensures var list := "fields: " + Join(names, ", ");
            && list != [] && !IsSpace(list[0])
            && forall k :: 0 <= k < |list| ==>
                 NotListStop(list[k]) && list[k] != '-' && list[k] != '*' && list[k] != '('
  {
    PlainJoinShape(names);
    var j := Join(names, ", ");
    var list := "fields: " + j;
    assert forall k :: 8 <= k < |list| ==> list[k] == j[k - 8];
  }

  /** Text, " with ", a list and '.' hold no bullet line and no inline field when neither the
      text nor the list holds '-', '*' or '('. */
  lemma NoBulletOrInline(pre: string, list: string)
    requires forall k :: 0 <= k < |pre| ==> pre[k] != '-' && pre[k] != '*' && pre[k] != '('
    requires forall k :: 0 <= k < |list| ==> list[k] != '-' && list[k] != '*' && list[k] != '('
    ensures var s := pre + " with " + list + ".";
            BulletFields(s) == [] && InlineFields(s) == []
  {
    var s := pre + " with " + list + ".";
    assert forall k :: |pre| + 6 <= k < |s| - 1 ==> s[k] == list[k - |pre| - 6];
    NoBullets(s);
    NoInline(s);
  }

  /** A request of free text without the word "with", then " with fields: " and plain names
      joined by ", ", then '.', has exactly those names as fields, in order, untyped and without
      modifiers. */
  lemma PlainWithRequest(pre: string, names: seq<string>)
    requires forall k :: 0 <= k < |pre| ==> pre[k] != '-' && pre[k] != '*' && pre[k] != '('
    requires forall p :: 0 <= p <= |pre| ==> !PrefixAtIgnoreCase(pre, p, "with")
    requires names != [] && forall i :: 0 <= i < |names| ==> PlainName(names[i])
    ensures var r := Fields(Some(pre + " with " + ("fields: " + Join(names, ", ")) + "."));
            |r| == |names| && forall i :: 0 <= i < |names| ==> r[i] == PlainField(names[i])
  {
    PlainListChars(names);
    WithClauseRequest(pre, "fields: " + Join(names, ", "));
    PlainListFields(names);
  }

  /** Text without '-', '*', '(' or "with", then " with ", a list the clause captures whole,
      and '.': the request's fields are the list's. */
  lemma WithClauseRequest(pre: string, list: string)
    requires forall k :: 0 <= k < |pre| ==> pre[k] != '-' && pre[k] != '*' && pre[k] != '('
    requires forall p :: 0 <= p <= |pre| ==> !PrefixAtIgnoreCase(pre, p, "with")
    requires list != [] && !IsSpace(list[0])
    requires forall k :: 0 <= k < |list| ==>
               NotListStop(list[k]) && list[k] != '-' && list[k] != '*' && list[k] != '('
    ensures Fields(Some(pre + " with " + list + ".")) == ListFields(list)
  {
    WithRequestNotBlank(pre, list);
    NoBulletOrInline(pre, list);
    OneWithClause(pre, list);
    FieldsOfWithOnly(pre + " with " + list + ".", list);
  }

  /** A request holding " with " is not blank. */
  lemma WithRequestNotBlank(pre: string, list: string)
    ensures !IsBlank(pre + " with " + list + ".")
  {
    var h := pre + " with ";
    assert h[|pre| + 1] == 'w';
    assert (h + list + ".")[|pre| + 1] == h[|pre| + 1];
  }

  /** A non-blank request whose only fields come from with-clauses that capture list. */
  lemma FieldsOfWithOnly(s: string, list: string)
    requires !IsBlank(s) && BulletFields(s) == [] && InlineFields(s) == []
    requires WithFields(s) == ListFields(list)
    ensures Fields(Some(s)) == ListFields(list)
  {
    var fs := ListFields(list);
    assert Fields(Some(s)) == [] + fs + [];
    assert [] + fs + [] == fs;
  }

  /** Text without a 'w' in either case does not contain "with". */
  lemma NoWithWithoutW(pre: string)
    requires forall k :: 0 <= k < |pre| ==> LowerChar(pre[k]) != 'w'
    ensures forall p :: 0 <= p <= |pre| ==> !PrefixAtIgnoreCase(pre, p, "with")
  {
    forall p | 0 <= p <= |pre| ensures !PrefixAtIgnoreCase(pre, p, "with") {
      PrefixAtIgnoreCaseIff(pre, p, "with");
      if p + 4 <= |pre| {
        assert Lower(pre[p..p + 4])[0] == LowerChar(pre[p]);
      }
    }
  }

  /** The request "Create an API for Book with fields: title, authorName, publishedDate." has
      the fields title, authorName and publishedDate, in that order. */
  lemma BookRequestFields()
    ensures var r := Fields(Some(BookRequest()));
            |r| == 3 && r[0].name == "title" && r[1].name == "authorName" && r[2].name == "publishedDate"
  {
    var pre := "Create an API for Book";
    var names := ["title", "authorName", "publishedDate"];
    NoWithWithoutW(pre);
    BookNames();
    BookRequestText();
    PlainWithRequest(pre, names);
  }

  /** "Create an API for Book with fields: title, authorName, publishedDate.", piece by piece. */
  function BookRequest(): string {
    "Create an API for Book" + " with " + "fields: " + "title" + ", " + "authorName" + ", " + "publishedDate" + "."
  }

  /** The three names of the book request are plain names. */
  lemma BookNames()
    ensures PlainName("title") && PlainName("authorName") && PlainName("publishedDate")
  {
    assert |Lower("title")| == 5 && |Lower("authorName")| == 10 && |Lower("publishedDate")| == 13;
  }

  /** The book request is its text, " with fields: ", the names joined by ", ", and '.'. */
  lemma BookRequestText()
    ensures BookRequest()
            == "Create an API for Book" + " with " + ("fields: " + Join(["title", "authorName", "publishedDate"], ", ")) + "."
  {
    var names := ["title", "authorName", "publishedDate"];
    assert names[1..] == ["authorName", "publishedDate"] && names[1..][1..] == ["publishedDate"];
    assert Join(names[1..][1..], ", ") == "publishedDate";
    assert Join(names[1..], ", ") == "authorName" + ", " + "publishedDate";
    assert Join(names, ", ") == "title" + ", " + ("authorName" + ", " + "publishedDate");
  }

  // ---------------------------------------------------------------------------------------------
  // Entity segments

  /** The length of one (\r?\n) unit at i, or 0. */
  function BreakUnit(s: string, i: nat): nat {
    if i < |s| && s[i] == '\n' then 1
    else if i + 1 < |s| && s[i] == '\r' && s[i + 1] == '\n' then 2
    else 0
  }

  /** The end of the greedy run of (\r?\n) units at i. */
  function BreakRunEnd(s: string, i: nat): (j: nat)
    requires i <= |s|
    decreases |s| - i
    ensures i <= j <= |s|
  {
    var u := BreakUnit(s, i);
    if u > 0 && i + u <= |s| then BreakRunEnd(s, i + u) else i
  }

  /** SEGMENT_SPLIT at i: two or more line breaks in a row; the separator ends where they do. */
  function SeparatorAt(s: string, i: nat): (r: Option<nat>)
    requires i <= |s|
    ensures r.Some? ==> i < r.value <= |s|
  {
    var u := BreakUnit(s, i);
    if u > 0 && i + u <= |s| && BreakUnit(s, i + u) > 0 then Some(BreakRunEnd(s, i)) else None
  }

  /** The pieces of s from start on, cut at every separator, with the separator search resuming
      at i (Pattern.split). */
  function PiecesFrom(s: string, start: nat, i: nat): (r: seq<string>)
    requires start <= i <= |s|
    decreases |s| - i
    ensures |r| >= 1
  {
    if i == |s| then [s[start..]]
    else
      match SeparatorAt(s, i)
      case Some(j) => [s[start..i]] + PiecesFrom(s, j, j)
      case None => PiecesFrom(s, start, i + 1)
  }

  /** splitIntoEntitySegments: the pieces trimmed, the empty ones dropped (Pattern.split's
      dropping of trailing empty pieces is subsumed). */
  function Segments(request: Option<string>): seq<string> {
    if IsNullOrBlank(request) then [] else Present(PiecesFrom(request.value, 0, 0), NonEmptyTrim)
  }

  /** Every segment is non-empty and trimmed; a null or blank request has none. */
  lemma SegmentsTrimmed(request: Option<string>)
    ensures IsNullOrBlank(request) ==> Segments(request) == []
    ensures forall k :: 0 <= k < |Segments(request)| ==>
              Segments(request)[k] != [] && Trim(Segments(request)[k]) == Segments(request)[k]
  {
    if !IsNullOrBlank(request) {
      var pieces := PiecesFrom(request.value, 0, 0);
      PresentFrom(pieces, NonEmptyTrim);
      forall k | 0 <= k < |Segments(request)|
        ensures Segments(request)[k] != [] && Trim(Segments(request)[k]) == Segments(request)[k]
      {
        var j :| 0 <= j < |pieces| && NonEmptyTrim(pieces[j]) == Some(Segments(request)[k]);
      }
    }
  }

  /** Without a separator from i on, the rest of the input is one piece. */
  lemma {:induction false} NoSeparatorOnePiece(s: string, start: nat, i: nat)
    requires start <= i <= |s|
    requires forall k :: i <= k < |s| ==> SeparatorAt(s, k).None?
    ensures PiecesFrom(s, start, i) == [s[start..]]
    decreases |s| - i
  {
    if i < |s| {
      NoSeparatorOnePiece(s, start, i + 1);
    }
  }

  /** A request without a blank line is one segment: itself, trimmed. */
  lemma NoSeparatorOneSegment(s: string)
    requires !IsBlank(s) && Trim(s) != []
    requires forall k :: 0 <= k < |s| ==> SeparatorAt(s, k).None?
    ensures Segments(Some(s)) == [Trim(s)]
  {
    NoSeparatorOnePiece(s, 0, 0);
    assert s[0..] == s;
    assert Present([s], NonEmptyTrim) == [Trim(s)] by {
      assert [s][1..] == [];
    }
  }
}
