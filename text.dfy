/** String primitives of java.lang.String that the generator relies on, restricted to ASCII case
    mapping. */
module Text {
  import opened Wrappers

  /** A character that String.trim removes: anything at or below U+0020. */
  predicate IsTrimmable(c: char) { c <= ' ' }

  /** Character.isWhitespace, which String.isBlank uses. */
  predicate IsWhitespace(c: char) {
    || c == ' ' || c == '\t' || c == '\n' || c == '\U{000B}' || c == '\U{000C}' || c == '\r'
    || ('\U{001C}' <= c <= '\U{001F}')
    || c == '\U{1680}' || ('\U{2000}' <= c <= '\U{2006}') || ('\U{2008}' <= c <= '\U{200A}')
    || c == '\U{2028}' || c == '\U{2029}' || c == '\U{205F}' || c == '\U{3000}'
  }

  /** The regular-expression class \s, that is [ \t\n\x0B\f\r]. */
  predicate IsSpace(c: char) {
    c == ' ' || c == '\t' || c == '\n' || c == '\U{000B}' || c == '\U{000C}' || c == '\r'
  }

  predicate NotSpace(c: char) { !IsSpace(c) }

  lemma SpaceIsWhitespace(c: char)
    ensures IsSpace(c) ==> IsWhitespace(c) && IsTrimmable(c)
  {}

  predicate IsUpper(c: char) { 'A' <= c <= 'Z' }
  predicate IsLower(c: char) { 'a' <= c <= 'z' }
  predicate IsLetter(c: char) { IsUpper(c) || IsLower(c) }
  predicate IsDigit(c: char) { '0' <= c <= '9' }
  predicate IsAlnum(c: char) { IsLetter(c) || IsDigit(c) }

  /** Character.toLowerCase on ASCII. */
  function LowerChar(c: char): (r: char)
    ensures !IsUpper(r)
    ensures IsUpper(c) ==> IsLower(r) && r as int == c as int + 32
    ensures !IsUpper(c) ==> r == c
  {
    if IsUpper(c) then (c as int + 32) as char else c
  }

  /** Character.toUpperCase on ASCII. */
  function UpperChar(c: char): (r: char)
    ensures !IsLower(r)
    ensures IsLower(c) ==> IsUpper(r) && r as int == c as int - 32
    ensures !IsLower(c) ==> r == c
  {
    if IsLower(c) then (c as int - 32) as char else c
  }

  /** Upper-casing after lower-casing is plain upper-casing. */
  lemma UpperOfLower(c: char)
    ensures UpperChar(LowerChar(c)) == UpperChar(c)
  {
    if IsUpper(c) {
      assert LowerChar(c) as int - 32 == c as int;
    }
  }

  /** String.toLowerCase(Locale.ROOT) on ASCII. */
  function Lower(s: string): (r: string)
    ensures |r| == |s|
    ensures forall i {:trigger r[i]} :: 0 <= i < |s| ==> r[i] == LowerChar(s[i])
  {
    seq(|s|, i requires 0 <= i < |s| => LowerChar(s[i]))
  }

  lemma LowerAppend(a: string, b: string)
    ensures Lower(a + b) == Lower(a) + Lower(b)
  {
    assert forall i :: 0 <= i < |a + b| ==> Lower(a + b)[i] == (Lower(a) + Lower(b))[i];
  }

  lemma LowerIdempotent(s: string)
    ensures Lower(Lower(s)) == Lower(s)
  {}

  predicate IsBlank(s: string) { forall i :: 0 <= i < |s| ==> IsWhitespace(s[i]) }

  /** A null-or-blank test of a Java String that may be null. */
  predicate IsNullOrBlank(s: Option<string>) { s.None? || IsBlank(s.value) }

  function TrimStart(s: string): (r: string)
    ensures |r| <= |s|
    ensures |r| < |s| ==> r == s[|s| - |r|..]
    ensures |r| == |s| ==> r == s
    ensures r == [] || !IsTrimmable(r[0])
    ensures forall i :: 0 <= i < |s| - |r| ==> IsTrimmable(s[i])
  {
    if |s| > 0 && IsTrimmable(s[0]) then TrimStart(s[1..]) else s
  }

  function TrimEnd(s: string): (r: string)
    ensures |r| <= |s| && r == s[..|r|]
    ensures r == [] || !IsTrimmable(r[|r| - 1])
    ensures forall i :: |r| <= i < |s| ==> IsTrimmable(s[i])
  {
    if |s| > 0 && IsTrimmable(s[|s| - 1]) then TrimEnd(s[..|s| - 1]) else s
  }

  /** r sits at offset k in s and everything around it is trimmable. */
  predicate TrimmedAt(s: string, r: string, k: int) {
    && 0 <= k <= |s| - |r| && r == s[k..k + |r|]
    && (forall i :: 0 <= i < k ==> IsTrimmable(s[i]))
    && (forall i :: k + |r| <= i < |s| ==> IsTrimmable(s[i]))
  }

  /** String.trim: the longest infix without a trimmable first or last character. */
  function Trim(s: string): (r: string)
    ensures |r| <= |s|
    ensures r == [] || (!IsTrimmable(r[0]) && !IsTrimmable(r[|r| - 1]))
    ensures exists k :: TrimmedAt(s, r, k)
  {
    var t := TrimStart(s);
    var r := TrimEnd(t);
    assert TrimmedAt(s, r, |s| - |t|);
    r
  }

  /** Lower-casing commutes with trimming: it changes only letters, which are never trimmed. */
  lemma {:induction false} LowerTrimStart(s: string)
    ensures TrimStart(Lower(s)) == Lower(TrimStart(s))
    decreases |s|
  {
    if |s| > 0 {
      assert Lower(s)[1..] == Lower(s[1..]);
      LowerTrimStart(s[1..]);
    }
  }

  lemma {:induction false} LowerTrimEnd(s: string)
    ensures TrimEnd(Lower(s)) == Lower(TrimEnd(s))
    decreases |s|
  {
    if |s| > 0 {
      assert Lower(s)[..|s| - 1] == Lower(s[..|s| - 1]);
      LowerTrimEnd(s[..|s| - 1]);
    }
  }

  lemma LowerTrim(s: string)
    ensures Trim(Lower(s)) == Lower(Trim(s))
  {
    LowerTrimStart(s);
    LowerTrimEnd(TrimStart(s));
  }

  /** No occurrence of p when no three consecutive characters of s start p. */
  lemma NotContainsByTriple(s: string, p: string)
    requires |p| >= 3
    requires forall j :: 0 <= j < |s| - 2 ==> s[j] != p[0] || s[j + 1] != p[1] || s[j + 2] != p[2]
    ensures !Contains(s, p)
  {
    forall j ensures !OccursAt(s, p, j) {
      if 0 <= j && j + |p| <= |s| {
        assert s[j..j + |p|][0] == s[j] && s[j..j + |p|][1] == s[j + 1] && s[j..j + |p|][2] == s[j + 2];
      }
    }
    ContainsIff(s, p);
  }

  /** A string with nothing to trim is its own trim. */
  lemma TrimOfTrimmed(s: string)
    requires s == [] || (!IsTrimmable(s[0]) && !IsTrimmable(s[|s| - 1]))
    ensures Trim(s) == s
  {}

  lemma TrimIdempotent(s: string)
    ensures Trim(Trim(s)) == Trim(s)
  {
    TrimOfTrimmed(Trim(s));
  }

  /** Trim is empty exactly when every character is trimmable. */
  lemma TrimEmpty(s: string)
    ensures Trim(s) == [] <==> forall i :: 0 <= i < |s| ==> IsTrimmable(s[i])
  {
    var r := Trim(s);
    var k :| TrimmedAt(s, r, k);
    if r != [] {
      assert r[0] == s[k];
    }
  }

  /** Trimming a string whose first and last characters are kept cuts only into what follows. */
  lemma TrimKeepsFrame(p: string, t: string)
    requires p != [] && !IsTrimmable(p[0]) && !IsTrimmable(p[|p| - 1])
    ensures exists k: nat :: k <= |t| && Trim(p + t) == p + t[..k]
  {
    var s := p + t;
    assert TrimStart(s) == s;
    var r := TrimEnd(s);
    assert s[|p| - 1] == p[|p| - 1];
    assert r == p + t[..|r| - |p|];
  }

  /** String.equalsIgnoreCase, with ASCII case mapping. */
  predicate EqualsIgnoreCase(a: string, b: string) { Lower(a) == Lower(b) }

  predicate StartsWith(s: string, p: string) { |p| <= |s| && s[..|p|] == p }
  predicate EndsWith(s: string, p: string) { |p| <= |s| && s[|s| - |p|..] == p }

  /** A suffix of a suffix is a suffix. */
  lemma EndsWithTransitive(s: string, p: string, q: string)
    requires EndsWith(s, p) && EndsWith(p, q)
    ensures EndsWith(s, q)
  {
    assert s[|s| - |q|..] == s[|s| - |p|..][|p| - |q|..];
  }

  /** p occurs in s at position j. */
  predicate OccursAt(s: string, p: string, j: int) {
    0 <= j && j + |p| <= |s| && s[j..j + |p|] == p
  }

  /** String.indexOf(p, from): the first occurrence at or after from, or -1. */
  function IndexOf(s: string, p: string, from: nat): (r: int)
    decreases |s| - from
    ensures r == -1 || (from <= r && OccursAt(s, p, r))
    ensures forall j :: from <= j && (r == -1 || j < r) ==> !OccursAt(s, p, j)
  {
    if from + |p| > |s| then -1
    else if s[from..from + |p|] == p then from
    else IndexOf(s, p, from + 1)
  }

  /** String.contains. */
  predicate Contains(s: string, p: string) { IndexOf(s, p, 0) >= 0 }

  lemma ContainsIff(s: string, p: string)
    ensures Contains(s, p) <==> exists j :: OccursAt(s, p, j)
  {
    if !Contains(s, p) {
      forall j ensures !OccursAt(s, p, j) {
        if j < 0 {} else { assert 0 <= j; }
      }
    }
  }

  /** The first occurrence at or after from is at k when p occurs at k and nowhere in between. */
  lemma IndexOfAt(s: string, p: string, from: nat, k: nat)
    requires from <= k && OccursAt(s, p, k)
    requires forall j :: from <= j < k ==> !OccursAt(s, p, j)
    ensures IndexOf(s, p, from) == k
  {
  }

  /** An occurrence of a longer pattern contains its prefix. */
  lemma ContainsPrefix(s: string, p: string, q: string)
    requires Contains(s, p + q)
    ensures Contains(s, p)
  {
    var j := IndexOf(s, p + q, 0);
    assert s[j..j + |p|] == (p + q)[..|p|];
    assert OccursAt(s, p, j);
    ContainsIff(s, p);
  }

  /** An occurrence of a longer pattern contains its suffix. */
  lemma ContainsSuffix(s: string, p: string, q: string)
    requires Contains(s, p + q)
    ensures Contains(s, q)
  {
    var j := IndexOf(s, p + q, 0);
    assert s[j + |p|..j + |p| + |q|] == (p + q)[|p|..];
    assert OccursAt(s, q, j + |p|);
    ContainsIff(s, q);
  }

  /** String.replace(char, char). */
  function ReplaceChar(s: string, a: char, b: char): (r: string)
    ensures |r| == |s|
    ensures forall i {:trigger r[i]} :: 0 <= i < |s| ==> r[i] == (if s[i] == a then b else s[i])
  {
    seq(|s|, i requires 0 <= i < |s| => if s[i] == a then b else s[i])
  }

  /** String.replace(CharSequence, CharSequence): every non-overlapping occurrence of t, scanning
      from the left, becomes u. */
  function ReplaceAll(s: string, t: string, u: string): string
    requires |t| > 0
  {
    if |s| < |t| then s
    else if s[..|t|] == t then u + ReplaceAll(s[|t|..], t, u)
    else [s[0]] + ReplaceAll(s[1..], t, u)
  }

  /** Every character of s satisfying keep, in order (String.replaceAll with a character class). */
  function Filter(s: string, keep: char -> bool): (r: string)
    ensures |r| <= |s|
    ensures forall i :: 0 <= i < |r| ==> keep(r[i])
    ensures forall c :: c in s && keep(c) ==> c in r
    ensures forall c :: c in r ==> c in s
  {
    if s == [] then [] else (if keep(s[0]) then [s[0]] else []) + Filter(s[1..], keep)
  }

  /** String.split on a single separator character, keeping every piece. */
  function SplitOn(s: string, sep: char): (r: seq<string>)
    ensures |r| >= 1
    ensures forall i :: 0 <= i < |r| ==> sep !in r[i]
  {
    if sep !in s then [s]
    else
      var k := FirstIndex(s, sep);
      [s[..k]] + SplitOn(s[k + 1..], sep)
  }

  function FirstIndex(s: string, c: char): (k: nat)
    requires c in s
    ensures k < |s| && s[k] == c && c !in s[..k]
  {
    if s[0] == c then 0 else FirstIndex(s[1..], c) + 1
  }

  /** Index of the first character at or after i that does not satisfy p (a maximal run). */
  function Span(s: string, i: nat, p: char -> bool): (j: nat)
    requires i <= |s|
    decreases |s| - i
    ensures i <= j <= |s|
    ensures forall k :: i <= k < j ==> p(s[k])
    ensures j == |s| || !p(s[j])
  {
    if i < |s| && p(s[i]) then Span(s, i + 1, p) else i
  }

  /** The end of a maximal run is determined by the run. */
  lemma {:induction false} SpanAt(s: string, i: nat, p: char -> bool, j: nat)
    requires i <= j <= |s|
    requires forall k :: i <= k < j ==> p(s[k])
    requires j == |s| || !p(s[j])
    ensures Span(s, i, p) == j
    decreases |s| - i
  {
    if i < j {
      SpanAt(s, i + 1, p, j);
    }
  }

  /** The tokens of String.split("\\s+") applied to a string without leading \s: the maximal runs
      of characters outside \s. */
  function Tokens(s: string): (r: seq<string>)
    decreases |s|
    ensures forall i :: 0 <= i < |r| ==> r[i] != []
    ensures forall i, j :: 0 <= i < |r| && 0 <= j < |r[i]| ==> !IsSpace(r[i][j])
  {
    var a := Span(s, 0, IsSpace);
    if a == |s| then []
    else
      var b := Span(s, a, NotSpace);
      [s[a..b]] + Tokens(s[b..])
  }

  /** A property every character of s has, every character of every token has. */
  lemma {:induction false} TokensKeep(s: string, p: char -> bool)
    requires forall j :: 0 <= j < |s| ==> p(s[j])
    ensures forall i, j :: 0 <= i < |Tokens(s)| && 0 <= j < |Tokens(s)[i]| ==> p(Tokens(s)[i][j])
    decreases |s|
  {
    var a := Span(s, 0, IsSpace);
    if a < |s| {
      var b := Span(s, a, NotSpace);
      TokensKeep(s[b..], p);
      assert Tokens(s) == [s[a..b]] + Tokens(s[b..]);
    }
  }

  /** String.join. */
  function Join(parts: seq<string>, sep: string): string {
    if parts == [] then []
    else if |parts| == 1 then parts[0]
    else parts[0] + sep + Join(parts[1..], sep)
  }

  /** Joining one more part appends the separator and the part. */
  lemma {:induction false} JoinSnoc(parts: seq<string>, x: string, sep: string)
    ensures Join(parts + [x], sep) == if parts == [] then x else Join(parts, sep) + sep + x
    decreases |parts|
  {
    if |parts| >= 2 {
      assert (parts + [x])[1..] == parts[1..] + [x];
      JoinSnoc(parts[1..], x, sep);
    } else if |parts| == 1 {
      assert (parts + [x])[1..] == [x];
    }
  }

  /** How many times c occurs in s. */
  function CountChar(s: string, c: char): (n: nat)
    ensures n <= |s|
    ensures n == 0 <==> c !in s
  {
    if s == [] then 0 else (if s[0] == c then 1 else 0) + CountChar(s[1..], c)
  }

  lemma {:induction false} CountCharAppend(a: string, b: string, c: char)
    ensures CountChar(a + b, c) == CountChar(a, c) + CountChar(b, c)
    decreases |a|
  {
    if a != [] {
      assert (a + b)[0] == a[0] && (a + b)[1..] == a[1..] + b;
      CountCharAppend(a[1..], b, c);
    } else {
      assert a + b == b;
    }
  }

  /** s repeated n times (String.repeat). */
  function Repeat(s: string, n: nat): (r: string)
  {
    if n == 0 then [] else s + Repeat(s, n - 1)
  }

  function DigitChar(d: nat): (c: char)
    requires d < 10
    ensures IsDigit(c)
  {
    ('0' as int + d) as char
  }

  /** Decimal digits of n, without leading zeros. */
  function NatToString(n: nat): (r: string)
    ensures |r| >= 1 && forall i :: 0 <= i < |r| ==> IsDigit(r[i])
    ensures (r[0] == '0') == (n == 0)
  {
    if n < 10 then [DigitChar(n)] else NatToString(n / 10) + [DigitChar(n % 10)]
  }

  /** One digit exactly for the numbers below ten. */
  lemma NatToStringShort(n: nat)
    ensures |NatToString(n)| == 1 <==> n < 10
  {
    if n >= 10 {
      assert |NatToString(n)| == |NatToString(n / 10)| + 1;
    }
  }

  /** Different numbers have different decimal forms. */
  lemma {:induction false} NatToStringInjective(a: nat, b: nat)
    requires NatToString(a) == NatToString(b)
    ensures a == b
    decreases a
  {
    NatToStringShort(a);
    NatToStringShort(b);
    if a >= 10 {
      var s := NatToString(a);
      assert s == NatToString(a / 10) + [DigitChar(a % 10)];
      assert s == NatToString(b / 10) + [DigitChar(b % 10)];
      assert s[..|s| - 1] == NatToString(a / 10);
      assert s[..|s| - 1] == NatToString(b / 10);
      NatToStringInjective(a / 10, b / 10);
    }
  }

  /** Two digit runs that both sit at position k of s and are both followed by a non-digit are
      the same run. */
  lemma DigitRunAt(s: string, k: nat, d1: string, d2: string)
    requires k + |d1| < |s| && k + |d2| < |s|
    requires forall j :: k <= j < k + |d1| ==> IsDigit(s[j])
    requires forall j :: k <= j < k + |d2| ==> IsDigit(s[j])
    requires forall i :: 0 <= i < |d1| ==> s[k + i] == d1[i]
    requires forall i :: 0 <= i < |d2| ==> s[k + i] == d2[i]
    requires !IsDigit(s[k + |d1|]) && !IsDigit(s[k + |d2|])
    ensures d1 == d2
  {
    assert |d1| == |d2|;
    assert forall i :: 0 <= i < |d1| ==> d1[i] == d2[i];
  }

  lemma StartsWithAppend(a: string, b: string)
    ensures StartsWith(a + b, a)
  {
    assert (a + b)[..|a|] == a;
  }

  lemma StartsWithExtend(s: string, p: string, q: string)
    requires StartsWith(s, p)
    ensures StartsWith(s + q, p)
  {
    assert (s + q)[..|p|] == s[..|p|];
  }

  lemma EndsWithAppend(a: string, b: string)
    ensures EndsWith(a + b, b)
  {
    assert (a + b)[|a|..] == b;
  }

  /** The last three pieces of a four-piece text are a suffix of it. */
  lemma EndsWithLastThree(a: string, b: string, c: string, d: string)
    ensures EndsWith(a + b + c + d, b + c + d)
  {
    var s := a + b + c + d;
    var t := b + c + d;
    assert |s| - |t| == |a|;
    forall i | 0 <= i < |t| ensures s[|a|..][i] == t[i] {
      assert s[|a|..][i] == s[|a| + i];
    }
    assert s[|a|..] == t;
  }

  lemma ContainsAppendEnd(a: string, b: string)
    ensures Contains(a + b, b)
  {
    assert (a + b)[|a|..|a| + |b|] == b;
    assert OccursAt(a + b, b, |a|);
    ContainsIff(a + b, b);
  }

  lemma ContainsExtend(s: string, p: string, q: string)
    requires Contains(s, p)
    ensures Contains(s + q, p)
  {
    ContainsIff(s, p);
    var j :| OccursAt(s, p, j);
    assert (s + q)[j..j + |p|] == s[j..j + |p|];
    assert OccursAt(s + q, p, j);
    ContainsIff(s + q, p);
  }

  /** A joined list starts with its first part. */
  lemma JoinStartsWith(parts: seq<string>, sep: string)
    requires parts != []
    ensures StartsWith(Join(parts, sep), parts[0])
  {
    if |parts| > 1 {
      StartsWithAppend(parts[0], sep);
      StartsWithExtend(parts[0] + sep, parts[0], Join(parts[1..], sep));
    }
  }

  /** The text after a prefix starts with what was appended right after it. */
  lemma AfterPrefix(a: string, b: string, c: string)
    ensures StartsWith((a + b + c)[|a|..], b)
  {
    assert (a + b + c)[|a|..] == b + c;
    assert (b + c)[..|b|] == b;
  }

  /** Integer.toString / StringBuilder.append(int). */
  function IntToString(n: int): (r: string)
    ensures |r| >= 1
    ensures (r[0] == '-') == (n < 0)
  {
    if n < 0 then "-" + NatToString(-n) else NatToString(n)
  }

  function BoolToString(b: bool): string { if b then "true" else "false" }

  /** Lexicographic order of String.compareTo, one char at a time (a Unicode scalar value here,
      a UTF-16 code unit in Java; the two agree below U+10000). */
  predicate LessThan(a: string, b: string)
    decreases |a|
  {
    if a == [] then b != []
    else if b == [] then false
    else if a[0] != b[0] then a[0] < b[0]
    else LessThan(a[1..], b[1..])
  }

  lemma {:induction false} LessThanIrreflexive(a: string)
    ensures !LessThan(a, a)
  {
    if a != [] { LessThanIrreflexive(a[1..]); }
  }

  lemma {:induction false} LessThanTransitive(a: string, b: string, c: string)
    requires LessThan(a, b) && LessThan(b, c)
    ensures LessThan(a, c)
    decreases |a|
  {
    if a != [] && b != [] && c != [] && a[0] == b[0] && b[0] == c[0] {
      LessThanTransitive(a[1..], b[1..], c[1..]);
    }
  }

  lemma {:induction false} LessThanTotal(a: string, b: string)
    requires a != b
    ensures LessThan(a, b) || LessThan(b, a)
    decreases |a|
  {
    if a != [] && b != [] && a[0] == b[0] {
      assert a == [a[0]] + a[1..] && b == [b[0]] + b[1..];
      LessThanTotal(a[1..], b[1..]);
    }
  }

  lemma {:induction false} LessThanAsymmetric(a: string, b: string)
    requires LessThan(a, b)
    ensures !LessThan(b, a)
    decreases |a|
  {
    if a != [] && b != [] && a[0] == b[0] {
      LessThanAsymmetric(a[1..], b[1..]);
    }
  }

  /** The text a StringBuilder holds after appending line(x) for each item in order. */
  function Emit<T>(items: seq<T>, line: T -> string): string {
    if items == [] then [] else Emit(items[..|items| - 1], line) + line(items[|items| - 1])
  }

  lemma {:induction false} EmitAppend<T>(a: seq<T>, b: seq<T>, line: T -> string)
    ensures Emit(a + b, line) == Emit(a, line) + Emit(b, line)
    decreases |b|
  {
    if b == [] {
      assert a + b == a;
    } else {
      var c := b[..|b| - 1];
      assert (a + b)[..|a + b| - 1] == a + c;
      EmitAppend(a, c, line);
    }
  }

  /** When every item's text holds c exactly once, the emitted text holds it once per item. */
  lemma {:induction false} EmitCount<T>(items: seq<T>, line: T -> string, c: char)
    requires forall x :: x in items ==> CountChar(line(x), c) == 1
    ensures CountChar(Emit(items, line), c) == |items|
    decreases |items|
  {
    if items != [] {
      var init := items[..|items| - 1];
      var last := line(items[|items| - 1]);
      assert forall x :: x in init ==> x in items;
      EmitCount(init, line, c);
      CountCharAppend(Emit(init, line), last, c);
    }
  }

  /** The k-th item's text follows the texts of the items before it, after any common head. */
  lemma EmitPrefix<T>(head: string, items: seq<T>, line: T -> string, k: nat)
    requires k < |items|
    ensures StartsWith(head + Emit(items, line), head + Emit(items[..k], line) + line(items[k]))
  {
    var before := Emit(items[..k + 1], line);
    var after := Emit(items[k + 1..], line);
    assert Emit(items, line) == before + after by {
      assert items == items[..k + 1] + items[k + 1..];
      EmitAppend(items[..k + 1], items[k + 1..], line);
    }
    assert before == Emit(items[..k], line) + line(items[k]) by {
      assert items[..k + 1][..k] == items[..k];
    }
    StartsWithAppend(before, after);
    StartsWithPrepend(head, Emit(items, line), Emit(items[..k], line), line(items[k]));
  }

  /** A common head keeps a prefix a prefix. */
  lemma StartsWithPrepend(head: string, s: string, a: string, b: string)
    requires StartsWith(s, a + b)
    ensures StartsWith(head + s, head + a + b)
  {
    var p := head + a + b;
    forall i | 0 <= i < |p| ensures (head + s)[i] == p[i] {
      if i >= |head| {
        assert (head + s)[i] == s[i - |head|] == (a + b)[i - |head|];
      }
    }
    assert (head + s)[..|p|] == p;
  }

  /** An append loop: the text of each item, in order. */
  method EmitLines<T>(items: seq<T>, line: T -> string) returns (out: string)
    ensures out == Emit(items, line)
  {
    out := "";
    for i := 0 to |items|
      invariant out == Emit(items[..i], line)
    {
      assert items[..i + 1][..i] == items[..i];
      out := out + line(items[i]);
    }
    assert items[..|items|] == items;
  }
}
