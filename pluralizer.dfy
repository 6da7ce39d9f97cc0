/** English plural forms of entity names, used for table names and resource paths. */
module Pluralizer {
  import opened Wrappers
  import opened Text

  /** isVowel, after lower-casing. */
  predicate IsVowel(c: char) {
    LowerChar(c) in "aeiou"
  }

  /** The word ends, case-insensitively, with one of the suffixes that take "es". */
  predicate TakesEs(lower: string) {
    EndsWith(lower, "ch") || EndsWith(lower, "sh") || EndsWith(lower, "x") || EndsWith(lower, "z")
  }

  /** The word has at least two characters and ends in a consonant followed by 'y'. */
  predicate TakesIes(lower: string) {
    EndsWith(lower, "y") && |lower| >= 2 && !IsVowel(lower[|lower| - 2])
  }

  /** pluralize: null or trim-empty input gives "", any other input the plural of the trimmed
      word. */
  function Pluralize(singular: Option<string>): (r: string)
    ensures singular.None? || Trim(singular.value) == [] <==> r == []
  {
    if singular.None? then []
    else
      var s := Trim(singular.value);
      if s == [] then [] else PluralOf(s)
  }

  /** The plural of a trimmed, non-empty word: kept when it already ends in 's', and given "es",
      "ies" (replacing 'y') or "s" otherwise. */
  function PluralOf(s: string): (r: string)
    requires s != []
    ensures r != [] && LowerChar(r[|r| - 1]) == 's'
    ensures r == s <==> EndsWith(Lower(s), "s")
    ensures r[0] == s[0]
  {
    var lower := Lower(s);
    if EndsWith(lower, "s") then
      assert lower[|s| - 1..][0] == lower[|s| - 1];
      s
    else if TakesEs(lower) then s + "es"
    else if TakesIes(lower) then s[..|s| - 1] + "ies"
    else s + "s"
  }

  /** The suffix rules, in the order they are tried. */
  lemma PluralOfRules(s: string)
    requires s != []
    ensures var lower := Lower(s);
            var r := PluralOf(s);
            && (!EndsWith(lower, "s") && TakesEs(lower) ==> r == s + "es")
            && (!EndsWith(lower, "s") && !TakesEs(lower) && TakesIes(lower) ==> r == s[..|s| - 1] + "ies")
            && (!EndsWith(lower, "s") && !TakesEs(lower) && !TakesIes(lower) ==> r == s + "s")
  {
  }

  /** The plural extends the word, or the word without its final 'y' in the "ies" case. */
  lemma PluralOfExtends(s: string)
    requires s != []
    ensures var r := PluralOf(s);
            StartsWith(r, s) || (StartsWith(r, s[..|s| - 1]) && r[|s| - 1..] == "ies")
  {
  }

  /** pluralize(pluralize(x)) == pluralize(x). */
  lemma PluralizeIdempotent(singular: Option<string>)
    ensures Pluralize(Some(Pluralize(singular))) == Pluralize(singular)
  {
    var r := Pluralize(singular);
    if r != [] {
      var s := Trim(singular.value);
      assert r == PluralOf(s);
      assert !IsTrimmable(r[|r| - 1]);
      TrimOfTrimmed(r);
      assert Lower(r)[|r| - 1] == 's';
      assert Lower(r)[|r| - 1..] == "s";
    }
  }
}
