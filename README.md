# REST API generator core, in Dafny

A verified model of the deterministic core of the REST API generator. The model covers three steps:

1. **From request text to specification.**
   - The request is cut out of a prompt (the `USER REQUEST` section).
   - It is split into entity segments.
   - Each segment yields an entity name, a list of fields and API flags. These come from fixed string rules: the name precedence chain, field-list splitting, type inference, pluralisation and the case transforms.
   - Entities and fields are de-duplicated, first occurrence wins.
   - Validation tokens are derived for each field.
   - Name hints are suggested when the request names no entity.
   - The configuration's project name and base package override the generated ones.
2. **Gatekeeping and scheduling.**
   - The structural validator is fail-fast, with typed errors.
   - The configuration defaults decide which plugins are enabled.
   - Template packs are selected by name.
   - The orchestrator selects the enabled plugins, sorts them by name, orders them depth-first by dependency (cycles and missing dependencies are errors) and concatenates their outputs.
3. **Serialisers.**
   - The JSON writer escapes strings per section 7 of RFC 8259 and indents by two spaces.
   - The Java snippet builder produces the class file.
   - The migration plugin writes SQL and Liquibase.
   - The project README and the OpenAPI documentation plugins.

**How the model is structured**
- There is one Dafny module per Java class. `Wrappers` provides Option and Result. `Text` models the `java.lang.String` operations the code uses: trim, isBlank, ASCII case mapping, replace, contains and integer formatting.
- Java `null` is `None`. Exceptions are `Result` failures carrying an error datatype.
- Each Java loop is a `method` with loop invariants. It is proved equal to a specification function (`ensures r == XxxOf(...)`), and the properties are lemmas about that function.
- Objects whose fields change are classes: the JSON writer and its indent, the plugin orderer with its `visiting`/`visited` sets, and the orchestrator's registry.

Where the written specification and the code disagree, the model follows the code:
- A request segment from which no entity name can be extracted is not dropped. It becomes an entity named `Item`. The segment is skipped only if `Item` already exists.
- Name suggestions are computed whenever the whole request has no extractable entity name, not only when no entity was found.

## Model

| member | source | states |
|---|---|---|
| Domain.NewEntityDefinition | src/main/java/io/restapigen/domain/EntityDefinition.java:15-23 | the constructor keeps the entity and api, and stores a null relationship list as the empty list |
| NameTransforms.Normalized | src/main/java/io/restapigen/generator/text/NameTransforms.java:74 | replacing '-' and '_' by ' ' keeps the length and leaves neither character |
| NameTransforms.SplitWordsAreWords | src/main/java/io/restapigen/generator/text/NameTransforms.java:66-84 | every piece splitWords yields is non-blank and free of '-', '_' and \s |
| NameTransforms.Capitalize | src/main/java/io/restapigen/generator/text/NameTransforms.java:86-91 | the first character is upper-cased and the rest kept, length unchanged |
| NameTransforms.ToPascalCase | src/main/java/io/restapigen/generator/text/NameTransforms.java:10-23 | the loop's result equals the specification function PascalCase (null or no words give "", blank parts skipped, each word lower-cased then capitalised) |
| NameTransforms.AppendPascalWords | src/main/java/io/restapigen/generator/text/NameTransforms.java:15-22 | the append loop over the words yields their Pascal forms concatenated in order |
| NameTransforms.CamelCase | src/main/java/io/restapigen/generator/text/NameTransforms.java:25-31 | the camel form has the Pascal form's length, is empty exactly when it is, and differs only in its first character, which is lower-cased |
| NameTransforms.PascalCaseHasNoSeparator | src/main/java/io/restapigen/generator/text/NameTransforms.java:15-22 | no character of the Pascal or camel form is '-', '_' or whitespace |
| NameTransforms.PascalCaseOfBlank | src/main/java/io/restapigen/generator/text/NameTransforms.java:10-14 | null, empty or blank input gives "" for Pascal and camel case |
| NameTransforms.PascalOfWord | src/main/java/io/restapigen/generator/text/NameTransforms.java:16-21 | a single untrimmable word is lower-cased and then capitalised |
| NameTransforms.PascalCaseLosesInnerCapitals | src/main/java/io/restapigen/generator/text/NameTransforms.java:20 | a single letter-only word keeps only its first letter upper-case ("authorName" gives "Authorname") |
| NameTransforms.PascalOfTwoLetters | src/main/java/io/restapigen/generator/text/NameTransforms.java:10-23 | two letters around a space give both letters upper-cased |
| NameTransforms.PascalCaseNotIdempotent | src/main/java/io/restapigen/generator/text/NameTransforms.java:20 | for every "x y" with a lower-case second letter, Pascal-casing the Pascal form changes it again |
| NameTransforms.ToSnakeCase | src/main/java/io/restapigen/generator/text/NameTransforms.java:33-60 | the loop's result equals SnakeCase: trim, '-' and ' ' become '_', lower-case with '_' before a capital that follows neither '_' nor a capital, then trimRepeated |
| NameTransforms.KebabCase | src/main/java/io/restapigen/generator/text/NameTransforms.java:62-64 | the kebab form has the snake form's length (it is the snake form with '_' replaced by '-') |
| NameTransforms.SnakeFromChars | src/main/java/io/restapigen/generator/text/NameTransforms.java:44-58 | every character the snake loop emits is '_' or a lower-cased input character, never a capital, '-' or ' ' |
| NameTransforms.CollapseOf | src/main/java/io/restapigen/generator/text/NameTransforms.java:101-103 | after the repeated-separator loop no two separators are adjacent |
| NameTransforms.ReplaceShrinks | src/main/java/io/restapigen/generator/text/NameTransforms.java:101-103 | each replacement pass never lengthens the string and shortens it while a pair remains, so the loop ends |
| NameTransforms.StripLeading | src/main/java/io/restapigen/generator/text/NameTransforms.java:95-97 | the result is a suffix of the input that does not start with the separator |
| NameTransforms.StripTrailing | src/main/java/io/restapigen/generator/text/NameTransforms.java:98-100 | the result is a prefix of the input that does not end with the separator |
| NameTransforms.TrimRepeated | src/main/java/io/restapigen/generator/text/NameTransforms.java:93-105 | the three loops compute TrimRepeatedOf (strip leading, strip trailing, collapse pairs) |
| NameTransforms.TrimRepeatedShape | src/main/java/io/restapigen/generator/text/NameTransforms.java:93-105 | the result has no separator at either end, no doubled separator, and only characters of the input |
| NameTransforms.SnakeCaseShape | src/main/java/io/restapigen/generator/text/NameTransforms.java:41-59 | the snake form has no leading, trailing or doubled '_', and no capital, '-' or ' ' |
| NameTransforms.KebabCaseShape | src/main/java/io/restapigen/generator/text/NameTransforms.java:62-64 | the kebab form has no '_', capital or ' ', and no '-' at either end |
| NameTransforms.TrimRepeatedOfClean | src/main/java/io/restapigen/generator/text/NameTransforms.java:93-105 | a string with no separator at its ends and none doubled is left unchanged |
| NameTransforms.SnakeFromLowerRun | src/main/java/io/restapigen/generator/text/NameTransforms.java:44-58 | a run of lower-case letters is copied with no '_' inserted |
| NameTransforms.SnakeFromUpperRun | src/main/java/io/restapigen/generator/text/NameTransforms.java:53 | a run of capitals at the start or after a capital is lower-cased with no '_' inside |
| NameTransforms.SnakeFromHump | src/main/java/io/restapigen/generator/text/NameTransforms.java:53-56 | a capital after a character that is neither '_' nor a capital gets a '_' before it |
| NameTransforms.SnakeCaseSplitsCamelHumps | src/main/java/io/restapigen/generator/text/NameTransforms.java:53-56 | lower + Upper + lower becomes lower + "_" + lower ("authorName" gives "author_name") |
| NameTransforms.SnakeCaseKeepsAcronymsTogether | src/main/java/io/restapigen/generator/text/NameTransforms.java:53-56 | capitals followed by lower-case letters are just lower-cased, with no '_' ("HTTPServer" gives "httpserver") |
| Pluralizer.Pluralize | src/main/java/io/restapigen/generator/text/Pluralizer.java:9-15 | the result is "" exactly when the input is null or trims to "" |
| Pluralizer.PluralOf | src/main/java/io/restapigen/generator/text/Pluralizer.java:16-30 | a non-empty word's plural ends in 's' or 'S', keeps the first character, and equals the word exactly when the lower-cased word ends in "s" |
| Pluralizer.PluralOfRules | src/main/java/io/restapigen/generator/text/Pluralizer.java:17-29 | the rules in order: "es" after ch/sh/x/z, "ies" replacing a 'y' after a consonant when the length is at least 2, and "s" otherwise |
| Pluralizer.PluralOfExtends | src/main/java/io/restapigen/generator/text/Pluralizer.java:17-29 | the plural extends the word, or the word without its last character followed by "ies" |
| Pluralizer.PluralizeIdempotent | src/main/java/io/restapigen/generator/text/Pluralizer.java:17-19 | pluralize(pluralize(x)) == pluralize(x) |
| TypeInference.HintType | src/main/java/io/restapigen/generator/text/TypeInference.java:12-23 | the synonym table always yields one of the eight known type names, and unknown hints give "String" |
| TypeInference.NameType | src/main/java/io/restapigen/generator/text/TypeInference.java:26-45 | the name rules yield a known type and never "Long" or "Double" |
| TypeInference.NormalizeType | src/main/java/io/restapigen/generator/text/TypeInference.java:8-46 | the result is always one of String, Long, Integer, Boolean, BigDecimal, Double, LocalDate or LocalDateTime |
| TypeInference.HintDecides | src/main/java/io/restapigen/generator/text/TypeInference.java:10-24 | a hint that survives trimming decides the type whatever the name, and is matched case-insensitively |
| TypeInference.EmailBeforeDate | src/main/java/io/restapigen/generator/text/TypeInference.java:27-32 | "emailDate" gives String, because the email rule is tried before the date rule |
| TypeInference.CreatedAtIsDateTime | src/main/java/io/restapigen/generator/text/TypeInference.java:33-35 | "createdAt" gives LocalDateTime |
| TypeInference.IsActiveIsBoolean | src/main/java/io/restapigen/generator/text/TypeInference.java:36-38 | "isActive" gives Boolean |
| TypeInference.TotalPriceIsBigDecimal | src/main/java/io/restapigen/generator/text/TypeInference.java:39-41 | "totalPrice" gives BigDecimal |
| TypeInference.ItemCountIsInteger | src/main/java/io/restapigen/generator/text/TypeInference.java:42-44 | "itemCount" gives Integer |
| TypeInference.TitleIsString | src/main/java/io/restapigen/generator/text/TypeInference.java:26-45 | "title" matches no name rule and gives String |
| TypeInference.LooksLikeNameFieldIff | src/main/java/io/restapigen/generator/text/TypeInference.java:48-59 | a field is name-like exactly when it is non-null, non-blank and its lower-cased name ends in "name" |
| RequestParsing.Find | src/main/java/io/restapigen/generator/text/RequestParsing.java:25-27 | Matcher.find returns the leftmost position where the pattern matches, and nothing when no position matches |
| RequestParsing.CollectMatches | src/main/java/io/restapigen/generator/text/RequestParsing.java:59-64 | the while (find()) loop collects every match's items, each search resuming where the previous match ended |
| RequestParsing.PresentFrom | src/main/java/io/restapigen/generator/text/RequestParsing.java:138-143 | every kept result comes from some element of the input |
| RequestParsing.CollectPresent | src/main/java/io/restapigen/generator/text/RequestParsing.java:137-144 | the loop keeps exactly the present results, in order |
| RequestParsing.LastPresentIsLast | src/main/java/io/restapigen/generator/text/RequestParsing.java:42-47 | the right-to-left scan finds the right-most element with a result, and nothing exactly when no element has one |
| RequestParsing.ScanBack | src/main/java/io/restapigen/generator/text/RequestParsing.java:42-47 | the backward loop that stops at the first hit computes LastPresent |
| RequestParsing.ExplicitAt | src/main/java/io/restapigen/generator/text/RequestParsing.java:11 | an explicit "entity: Name" line captures a letter followed by [A-Za-z0-9_-] characters |
| RequestParsing.NameEnd | src/main/java/io/restapigen/generator/text/RequestParsing.java:12-13 | the captured name ends where a word boundary follows it |
| RequestParsing.NameAt | src/main/java/io/restapigen/generator/text/RequestParsing.java:12-13 | the captured name starts with a letter and ends with a word character |
| RequestParsing.ArticleName | src/main/java/io/restapigen/generator/text/RequestParsing.java:12-13 | after "api for" or "manage", an optional article is skipped and a letter name is captured |
| RequestParsing.ApiForAt | src/main/java/io/restapigen/generator/text/RequestParsing.java:12 | an "api for X" match captures a letter name |
| RequestParsing.ManageAt | src/main/java/io/restapigen/generator/text/RequestParsing.java:13 | a "manage X" match captures a letter name |
| RequestParsing.WithAt | src/main/java/io/restapigen/generator/text/RequestParsing.java:15 | a with-clause match is a whole word "with", spacing, then a non-empty run of [^\n\r.] |
| RequestParsing.CleanToken | src/main/java/io/restapigen/generator/text/RequestParsing.java:43 | a cleaned token holds only [A-Za-z0-9_-] characters |
| RequestParsing.EntityToken | src/main/java/io/restapigen/generator/text/RequestParsing.java:121-132 | a token qualifies exactly when, cleaned, it is non-blank and not api/crud/rest/service/endpoint/endpoints in any case; it is then returned cleaned |
| RequestParsing.WithFallback | src/main/java/io/restapigen/generator/text/RequestParsing.java:38-49 | the fallback's name is a run of [A-Za-z0-9_-] that is not a reserved word |
| RequestParsing.EntityNameIsName | src/main/java/io/restapigen/generator/text/RequestParsing.java:21-50 | every extracted entity name is a non-empty run of [A-Za-z0-9_-] |
| RequestParsing.ExplicitFirst | src/main/java/io/restapigen/generator/text/RequestParsing.java:25-28 | the first explicit "entity:" line decides the name, whatever else the request holds |
| RequestParsing.ApiForSecond | src/main/java/io/restapigen/generator/text/RequestParsing.java:29-32 | without an explicit line, the first "api for X" decides, whatever "manage" or "with" follow |
| RequestParsing.FallbackLast | src/main/java/io/restapigen/generator/text/RequestParsing.java:33-49 | the with-clause fallback is used only when no explicit, api-for or manage match exists anywhere |
| RequestParsing.LastEntityTokenIsLast | src/main/java/io/restapigen/generator/text/RequestParsing.java:41-47 | the fallback returns the right-most qualifying cleaned token before "with", and nothing when none qualifies |
| RequestParsing.ExtractEntityName | src/main/java/io/restapigen/generator/text/RequestParsing.java:21-50 | the method computes EntityName, the first rule that finds a name |
| RequestParsing.ModifierTests | src/main/java/io/restapigen/generator/text/RequestParsing.java:184-192 | nullable exactly when the lower-cased text contains "optional" or "null"; unique exactly when it contains "unique" |
| RequestParsing.DisableChecksKeep | src/main/java/io/restapigen/generator/text/RequestParsing.java:99-117 | each disable check is a substring test: text around a disabling phrase still disables |
| RequestParsing.StripFieldListPrefix | src/main/java/io/restapigen/generator/text/RequestParsing.java:147-149 | stripping removes a prefix only, and nothing when no fields/attributes keyword leads |
| RequestParsing.StripKeywordPrefix | src/main/java/io/restapigen/generator/text/RequestParsing.java:147-149 | leading spacing, a field/fields/attribute/attributes keyword in any case, spacing, at most one ':', '=' or '-', and spacing are removed, leaving exactly the rest of the list |
| RequestParsing.NonEmptyTrim | src/main/java/io/restapigen/generator/text/RequestParsing.java:139-142 | a kept part is non-empty, trimmed, and made of characters of the piece |
| RequestParsing.FieldListPartsShape | src/main/java/io/restapigen/generator/text/RequestParsing.java:134-145 | the parts of a field list are non-empty, trimmed and free of commas (" and " counts as a comma) |
| RequestParsing.SplitFieldList | src/main/java/io/restapigen/generator/text/RequestParsing.java:134-145 | the loop computes FieldListParts |
| RequestParsing.ParenTyped | src/main/java/io/restapigen/generator/text/RequestParsing.java:157-163 | the name(Type) pattern yields a non-empty name and a type hint |
| RequestParsing.ColonTyped | src/main/java/io/restapigen/generator/text/RequestParsing.java:165-171 | the name: Type pattern yields a non-empty name and a type hint |
| RequestParsing.ParseSimpleFieldToken | src/main/java/io/restapigen/generator/text/RequestParsing.java:151-182 | a parsed token always has a non-empty name; nothing results when the cleaned token is empty or only modifiers remain |
| RequestParsing.UntypedField | src/main/java/io/restapigen/generator/text/RequestParsing.java:173-181 | an untyped field's name is trimmed and free of '.', '(' and ')'; it is nullable exactly when the token mentions "optional" or "null", and unique exactly when it mentions "unique" |
| RequestParsing.ParseList | src/main/java/io/restapigen/generator/text/RequestParsing.java:72-78 | the body of the with-clause loop yields the parsed tokens of the list, in order |
| RequestParsing.BulletAt | src/main/java/io/restapigen/generator/text/RequestParsing.java:59-64 | a bullet match ends after its start and names a field that starts with a letter |
| RequestParsing.InlineAt | src/main/java/io/restapigen/generator/text/RequestParsing.java:82-84 | an inline name(Type) match names a field that starts with a letter and carries a type hint |
| RequestParsing.CollectWithFields | src/main/java/io/restapigen/generator/text/RequestParsing.java:66-79 | the with-clause loop collects the fields of every non-blank list, in match order |
| RequestParsing.ExtractFields | src/main/java/io/restapigen/generator/text/RequestParsing.java:52-87 | the method computes Fields: bullet fields, then with-clause fields, then inline fields, with no de-duplication |
| RequestParsing.PlainToken | src/main/java/io/restapigen/generator/text/RequestParsing.java:151-182 | a letter-only name that is not itself a modifier word parses to an untyped field of that name, nullable and unique as its modifier tests say |
| RequestParsing.PlainPieces | src/main/java/io/restapigen/generator/text/RequestParsing.java:134-145 | splitting names joined by ", " gives back exactly those names, in order |
| RequestParsing.PlainListFields | src/main/java/io/restapigen/generator/text/RequestParsing.java:72-78 | the list "fields: " followed by names joined by ", " yields one untyped field per name, in order |
| RequestParsing.OneWithClause | src/main/java/io/restapigen/generator/text/RequestParsing.java:66-79 | a request with a single " with " clause ending in '.', and no "with" before it, yields exactly the fields of that clause's list |
| RequestParsing.PlainWithRequest | src/main/java/io/restapigen/generator/text/RequestParsing.java:52-87 | a request of text without '-', '*', '(' or "with", then " with fields: " and names joined by ", ", then '.', has exactly those names as fields, in order |
| RequestParsing.BookRequestFields | src/test/java/io/restapigen/generator/text/RequestParsingTest.java:9-16 | "Create an API for Book with fields: title, authorName, publishedDate." has three fields, title, authorName and publishedDate, in that order |
| RequestParsing.SeparatorAt | src/main/java/io/restapigen/generator/text/RequestParsing.java:17 | a separator is two or more line breaks in a row |
| RequestParsing.SegmentsTrimmed | src/main/java/io/restapigen/generator/text/RequestParsing.java:89-97 | a null or blank request has no segments; every segment is non-empty and trimmed |
| RequestParsing.NoSeparatorOneSegment | src/main/java/io/restapigen/generator/text/RequestParsing.java:89-97 | a request with no blank line is one segment: itself, trimmed |
| EntityNameSuggester.RemoveApiSuffixAt | src/main/java/io/restapigen/generator/EntityNameSuggester.java:33 | where "-api$" matches, exactly those four characters are removed |
| EntityNameSuggester.RemoveApiSuffixNone | src/main/java/io/restapigen/generator/EntityNameSuggester.java:33 | without a match of "-api$" the name is unchanged |
| EntityNameSuggester.ProjectHintOfApiName | src/main/java/io/restapigen/generator/EntityNameSuggester.java:29-38 | a project name ending in "-api" loses exactly that suffix and is lower-cased before Pascal-casing |
| EntityNameSuggester.ProjectHintOfItemsApi | src/main/java/io/restapigen/generator/EntityNameSuggester.java:29-38 | "items-api" gives the hint "Items" |
| EntityNameSuggester.ProjectAt | src/main/java/io/restapigen/generator/EntityNameSuggester.java:14 | a "project X" match captures a letter followed by [A-Za-z0-9_-] characters |
| EntityNameSuggester.ExplicitKeywordFirst | src/main/java/io/restapigen/generator/EntityNameSuggester.java:40-49 | the first "project X" in the request gives the hint, Pascal-cased |
| EntityNameSuggester.ExplicitKeywordNone | src/main/java/io/restapigen/generator/EntityNameSuggester.java:44-47 | without any "project X" there is no hint |
| EntityNameSuggester.FirstToken | src/main/java/io/restapigen/generator/EntityNameSuggester.java:59 | the first token is a non-empty prefix without \s, ended by \s or by the end of the text |
| EntityNameSuggester.FirstTokenOfSplit | src/main/java/io/restapigen/generator/EntityNameSuggester.java:59-60 | the first token is the first element of split("\\s+") |
| EntityNameSuggester.FirstWordIsFirstToken | src/main/java/io/restapigen/generator/EntityNameSuggester.java:51-61 | the first-word hint is the Pascal form of the first \s-separated token of the trimmed request |
| EntityNameSuggester.FirstWordHint | src/main/java/io/restapigen/generator/EntityNameSuggester.java:51-61 | a request starting with a capitalised word of letters followed by \s gets that word as its hint |
| EntityNameSuggester.ProjectPhraseHint | src/main/java/io/restapigen/generator/EntityNameSuggester.java:40-49 | text without 'p' or 'P', then "project " and a lower-case word, gives that word capitalised ("project inventory" gives "Inventory") |
| EntityNameSuggester.AddIfPresent | src/main/java/io/restapigen/generator/EntityNameSuggester.java:63-68 | a present, non-blank candidate not yet held is appended; anything else leaves the hints unchanged |
| EntityNameSuggester.GatherIsSet | src/main/java/io/restapigen/generator/EntityNameSuggester.java:19-26 | the gathered hints have no duplicates and no blank entry, at most one per candidate, and are exactly the usable candidates' values |
| EntityNameSuggester.GatherPrefix | src/main/java/io/restapigen/generator/EntityNameSuggester.java:19-22 | hints are only ever appended, so earlier candidates' hints form a prefix |
| EntityNameSuggester.SuggestShape | src/main/java/io/restapigen/generator/EntityNameSuggester.java:18-27 | the result has between 1 and 3 elements, all distinct and non-blank |
| EntityNameSuggester.SuggestMembers | src/main/java/io/restapigen/generator/EntityNameSuggester.java:18-27 | the names are exactly the usable candidates' values, or "Item" alone when none is usable |
| EntityNameSuggester.SuggestIsItemIff | src/main/java/io/restapigen/generator/EntityNameSuggester.java:23-25 | the result is ["Item"] exactly when every usable candidate is "Item", in particular when none is usable |
| EntityNameSuggester.SuggestInOrder | src/main/java/io/restapigen/generator/EntityNameSuggester.java:20-22 | hints come in the order project-name hint, "project X" hint, first-word hint |
| EntityNameSuggester.Suggest | src/main/java/io/restapigen/generator/EntityNameSuggester.java:18-27 | the method computes SuggestFrom over the three candidates in that order |
| EntityNameSuggester.SuggestOfThree | src/main/java/io/restapigen/generator/EntityNameSuggester.java:18-27 | three distinct usable hints are all kept, in suggest's order |
| SpecInputExtractor.LineEnd | src/main/java/io/restapigen/generator/parser/SpecInputExtractor.java:41-44 | the line ends at the next '\n' at or after its start, or at the end of the input |
| SpecInputExtractor.NextLine | src/main/java/io/restapigen/generator/parser/SpecInputExtractor.java:49 | the next line starts strictly after the current one and no later than the end |
| SpecInputExtractor.SkipFrom | src/main/java/io/restapigen/generator/parser/SpecInputExtractor.java:38-52 | the skip stops at the start of the first line that is non-blank and does not start with '=', or at the end; a start past the end is returned unchanged |
| SpecInputExtractor.SkipFromSkipsOnlyDelimiters | src/main/java/io/restapigen/generator/parser/SpecInputExtractor.java:40-50 | every line skipped on the way is blank or starts with '=' |
| SpecInputExtractor.SkipFromEndsAtLineStart | src/main/java/io/restapigen/generator/parser/SpecInputExtractor.java:40-51 | the skip ends at the end of the input or at the start of a line |
| SpecInputExtractor.SkipDelimitersAndBlankLines | src/main/java/io/restapigen/generator/parser/SpecInputExtractor.java:38-52 | the loop (with a negative index clamped to 0) computes SkipFrom |
| SpecInputExtractor.IndexOfNextDelimiter | src/main/java/io/restapigen/generator/parser/SpecInputExtractor.java:54-64 | the result is the first position at or after the start holding the banner or "final instruction", or -1 when there is none |
| SpecInputExtractor.Cleaned | src/main/java/io/restapigen/generator/parser/SpecInputExtractor.java:30-35 | the result is "" or the trimmed section, which is then non-blank and not the placeholder in any case |
| SpecInputExtractor.Section | src/main/java/io/restapigen/generator/parser/SpecInputExtractor.java:27-35 | the extracted section is trimmed, non-blank, not the placeholder, and occurs in the input after the header line |
| SpecInputExtractor.ExtractUserRequest | src/main/java/io/restapigen/generator/parser/SpecInputExtractor.java:8-36 | null or blank input gives ""; without "user request" the trimmed input is returned; any result is trimmed and occurs in the trimmed input |
| SpecInputExtractor.NoBreakAfterHeader | src/main/java/io/restapigen/generator/parser/SpecInputExtractor.java:23-26 | with no line break after the header the trimmed input is returned unchanged |
| SpecInputExtractor.SectionBetween | src/main/java/io/restapigen/generator/parser/SpecInputExtractor.java:27-30 | the section is the cleaned text from the first kept line to the next delimiter |
| SpecInputExtractor.ExtractsFramedRequest | src/test/java/io/restapigen/generator/parser/SpecInputExtractorTest.java:9-22 | for every request line framed by banners (as in the test's "Create a CRUD API for Book with title, authorName."), exactly that line is extracted, whatever follows the closing banner |
| SpecGenerator.MapSeq | src/main/java/io/restapigen/generator/NaturalLanguageSpecGenerator.java:55-58 | mapping keeps the length and maps each element in place, in order |
| SpecGenerator.KeepFirstIsSet | src/main/java/io/restapigen/generator/NaturalLanguageSpecGenerator.java:47-100 | the kept elements have distinct, non-blank keys, and every non-blank input key is kept |
| SpecGenerator.KeepFirstIsFirst | src/main/java/io/restapigen/generator/NaturalLanguageSpecGenerator.java:50-52 | each kept element is the first element of the input with its key |
| SpecGenerator.KeepFirstPrefix | src/main/java/io/restapigen/generator/NaturalLanguageSpecGenerator.java:47-59 | the elements kept from a prefix of the input are a prefix of those kept from all of it |
| SpecGenerator.ProjectNameOfFirstEntity | src/main/java/io/restapigen/generator/NaturalLanguageSpecGenerator.java:177-199 | the project name ends in "-api", and without that suffix it is the first entity's resource path after "/api/" ("Item" when there is no entity) |
| SpecGenerator.ValidationRules | src/main/java/io/restapigen/generator/NaturalLanguageSpecGenerator.java:144-175 | nullable fields get no token; a String field gets "NotBlank" first, "Email" exactly when the format is email or the name contains "email", then "Size:min:max" (defaults 0 and 255) when a bound is given, or "Size:2:50" exactly for name-like fields; a numeric field gets a Min or Max token exactly for each bound given; other types get none |
| SpecGenerator.BuildValidationTokens | src/main/java/io/restapigen/generator/NaturalLanguageSpecGenerator.java:144-175 | the method computes ValidationTokens |
| SpecGenerator.FieldNamesUnique | src/main/java/io/restapigen/generator/NaturalLanguageSpecGenerator.java:95-100 | an entity's field names are distinct and non-blank, and every non-blank camel-cased parsed name has a field |
| SpecGenerator.FieldsFirstWins | src/main/java/io/restapigen/generator/NaturalLanguageSpecGenerator.java:97-128 | each field is built from the first parsed field with its camel-cased name |
| SpecGenerator.BuildFields | src/main/java/io/restapigen/generator/NaturalLanguageSpecGenerator.java:92-131 | the loop with its used-names set computes FieldsOf: the parsed fields de-duplicated by camel-cased name, then built |
| SpecGenerator.RelationshipNamesClean | src/main/java/io/restapigen/generator/NaturalLanguageSpecGenerator.java:133-142 | one relationship per parsed relationship, its type kept, target and field name free of '-', '_' and whitespace |
| SpecGenerator.BuildRelationships | src/main/java/io/restapigen/generator/NaturalLanguageSpecGenerator.java:133-142 | the loop maps each parsed relationship in order (target Pascal-cased, field name camel-cased) |
| SpecGenerator.UnnamedSegmentIsItem | src/main/java/io/restapigen/generator/NaturalLanguageSpecGenerator.java:48-49 | a segment with no extractable name is named "Item" |
| SpecGenerator.EntityNamesUnique | src/main/java/io/restapigen/generator/NaturalLanguageSpecGenerator.java:47-59 | entity names are distinct and non-blank, every segment's name has an entity, and each entity is built from the first segment with its name (later ones are skipped, not merged) |
| SpecGenerator.BuildEntity | src/main/java/io/restapigen/generator/NaturalLanguageSpecGenerator.java:53-89 | the entity built for a segment is MakeEntity: table and path from its name, id type "Long", its fields, API flags and relationships |
| SpecGenerator.BuildEntityDefinitions | src/main/java/io/restapigen/generator/NaturalLanguageSpecGenerator.java:40-61 | the loop with its used-names set computes EntitiesOf |
| SpecGenerator.Generate | src/main/java/io/restapigen/generator/NaturalLanguageSpecGenerator.java:27-38 | the method computes GenerateOf |
| SpecGenerator.BuiltEntitiesNamedByRule | src/main/java/io/restapigen/generator/NaturalLanguageSpecGenerator.java:53-199 | every built entity has a non-blank name, id type "Long", table pluralize(snake(name)) and path "/api/" + pluralize(kebab(name)) |
| SpecGenerator.GeneratedShape | src/main/java/io/restapigen/generator/NaturalLanguageSpecGenerator.java:23-183 | the base package is "com.example.generated"; there is at least one entity; names are unique and every entity is named by rule; projectName is pluralize(kebab(first name)) + "-api"; suggestions are empty when the request names an entity, and otherwise are suggest's 1 to 3 hints |
| SpecGenerator.AssembleShape | src/main/java/io/restapigen/generator/NaturalLanguageSpecGenerator.java:27-37 | assembling keeps uniqueness and naming, falls back to the default entity, and fixes project name, package and suggestions as above |
| SpecGenerator.BuiltFromSegments | src/main/java/io/restapigen/generator/NaturalLanguageSpecGenerator.java:47-89 | each built entity comes from the first segment with its name, with that segment's fields and relationships, and each flag is the negation of its disable check on the lower-cased segment |
| SpecGenerator.GeneratedFromSegments | src/main/java/io/restapigen/generator/NaturalLanguageSpecGenerator.java:27-89 | with no named segment the result is the single default entity; otherwise every entity is built from the first segment bearing its name, as above |
| SpecGenerator.DefaultItemDefinition | src/main/java/io/restapigen/generator/NaturalLanguageSpecGenerator.java:70-82 | the default entity "Item" has table "items", path "/api/items", all flags on, no fields or relationships, and the project name "items-api" |
| SpecGenerator.BlankRequest | src/main/java/io/restapigen/generator/NaturalLanguageSpecGenerator.java:27-37 | a null or blank request yields exactly the entity Item/items//api/items with all flags on, the project name "items-api" and package "com.example.generated"; a null or empty one also gets the suggestions ["Items"] |
| PromptParser.Parse | src/main/java/io/restapigen/core/parser/NaturalLanguagePromptParser.java:15-27 | the method computes ParseOf: the generator's result with the configured names put in |
| PromptParser.WithConfigRules | src/main/java/io/restapigen/core/parser/NaturalLanguagePromptParser.java:16-26 | entities (in order) and suggestions are passed through; each configured name is used exactly when it is not blank, and the generated one otherwise |
| PromptParser.WithConfigIdempotent | src/main/java/io/restapigen/core/parser/NaturalLanguagePromptParser.java:18-25 | applying the configuration twice changes nothing more |
| PromptParser.NormalizedConfigWins | src/main/java/io/restapigen/core/parser/NaturalLanguagePromptParser.java:18-26 | with a constructed (normalized) configuration, its project name and base package always win and the generator's entities are kept |
| PromptParser.BlankBasePackageIsGenerated | src/main/java/io/restapigen/core/parser/NaturalLanguagePromptParser.java:23-25 | a blank configured base package yields the generator's "com.example.generated" |
| GenerationConfig.Normalize | src/main/java/io/restapigen/core/config/GenerationConfig.java:245-250 | the fallback replaces a null or blank value, and any other value is kept |
| GenerationConfig.NormalizeNonBlank | src/main/java/io/restapigen/core/config/GenerationConfig.java:245-250 | with a non-blank fallback the result is never blank, and normalizing it again changes nothing |
| GenerationConfig.NewProjectConfig | src/main/java/io/restapigen/core/config/GenerationConfig.java:34-40 | every component is normalized with its fallback ("generated-api", "com.example.generated", "3.2.1", "17", "spring-boot-3-standard"), so none is blank |
| GenerationConfig.DisabledOverridesEnabled | src/main/java/io/restapigen/core/config/GenerationConfig.java:239-242 | a plugin is enabled exactly when it is in the enabled list and not in the disabled list |
| GenerationConfig.DefaultPluginSelection | src/main/java/io/restapigen/core/config/GenerationConfig.java:208-237 | under the default lists (what null lists become) "security-generator" is off and the nine other built-ins are on |
| GenerationConfig.NewConfig | src/main/java/io/restapigen/core/config/GenerationConfig.java:15-20 | each null part is replaced by its default, and a present part is kept |
| GenerationConfig.NullConfigIsDefault | src/main/java/io/restapigen/core/config/GenerationConfig.java:15-24 | a configuration built from nulls equals defaults(), and the default project configuration is normalized |
| GenerationConfig.WithTemplatePack | src/main/java/io/restapigen/core/config/GenerationConfig.java:252-261 | only the project record is rebuilt, with the normalized pack name |
| GenerationConfig.WithTemplatePackChangesOnlyPack | src/main/java/io/restapigen/core/config/GenerationConfig.java:252-261 | on a constructed configuration only the template pack changes; a null or blank name gives "spring-boot-3-standard" |
| TemplatePacks.AvailablePacks | src/main/java/io/restapigen/core/template/TemplatePack.java:24-30 | three packs, including the standard one |
| TemplatePacks.TemplatePath | src/main/java/io/restapigen/core/template/TemplatePack.java:6-8 | the path is "templates/" + pack name + "/" + file name |
| TemplatePacks.FromName | src/main/java/io/restapigen/core/template/TemplatePack.java:14-22 | a listed name is kept; null, blank and unknown names give "spring-boot-3-standard"; the result is always listed |
| TemplatePacks.FromNameIdempotent | src/main/java/io/restapigen/core/template/TemplatePack.java:14-30 | fromName is idempotent on its own output |
| TemplatePacks.BlankNamesAreNotPacks | src/main/java/io/restapigen/core/template/TemplatePack.java:15-21 | a blank name is never a listed pack, so the blank test and the membership test agree |
| SpecValidator.ValidateFields | src/main/java/io/restapigen/core/validator/SpecValidator.java:55-74 | the loop with its names set computes FieldsOutcome: the first failing field check in source order, or success |
| SpecValidator.ValidateRelationships | src/main/java/io/restapigen/core/validator/SpecValidator.java:76-93 | the loop with its keys set computes RelationshipsOutcome |
| SpecValidator.Validate | src/main/java/io/restapigen/core/validator/SpecValidator.java:19-53 | the method computes ValidationOutcome: project name, base package, non-empty entity list, then per entity name, duplicate, table, resource path and fields, and then every relationship against all entity names; the specification is a value and is left unchanged |
| SpecValidator.FieldsOutcomeIff | src/main/java/io/restapigen/core/validator/SpecValidator.java:55-74 | the field checks pass exactly when every field name matches ^[a-z][A-Za-z0-9_]*$, names are unique within the entity, types are non-blank, min <= max when both are given, and enum values appear only with type "String" |
| SpecValidator.SplitAtFirstColon | src/main/java/io/restapigen/core/validator/SpecValidator.java:88 | joining at ':' is injective when the left parts contain no ':' |
| SpecValidator.SplitAtLastColon | src/main/java/io/restapigen/core/validator/SpecValidator.java:88 | joining at ':' is injective when the right parts contain no ':' |
| SpecValidator.RelationKeyInjective | src/main/java/io/restapigen/core/validator/SpecValidator.java:88-91 | a relationship whose type and field name contain no ':' is determined by its key |
| SpecValidator.RelationshipsOutcomeIff | src/main/java/io/restapigen/core/validator/SpecValidator.java:76-93 | the relationship checks pass exactly when every type is supported, every target is a known entity, every field name matches, and no key repeats |
| SpecValidator.KeysDiffer | src/main/java/io/restapigen/core/validator/SpecValidator.java:88-91 | two different well-formed relationships have different keys |
| SpecValidator.DistinctKeysIff | src/main/java/io/restapigen/core/validator/SpecValidator.java:79-91 | for well-formed relationships, distinct keys is the same as distinct (type, target, field name) triples |
| SpecValidator.RelationshipsPassIff | src/main/java/io/restapigen/core/validator/SpecValidator.java:76-93 | the relationship checks pass exactly when every relationship is well formed and no triple repeats within the entity |
| SpecValidator.EntityPassIff | src/main/java/io/restapigen/core/validator/SpecValidator.java:31-47 | the first pass succeeds exactly when every entity is well formed and all names are distinct, and it then yields the set of all entity names |
| SpecValidator.RelationPassIff | src/main/java/io/restapigen/core/validator/SpecValidator.java:49-52 | the second pass succeeds exactly when every entity's relationships are well formed against the complete set of names, so a target declared later is accepted |
| SpecValidator.RelationshipErrorsComeLast | src/main/java/io/restapigen/core/validator/SpecValidator.java:19-52 | a relationship error is reported only after the project settings, every entity and every field have passed, with all entity names distinct |
| SpecValidator.ValidationPassIff | src/main/java/io/restapigen/core/validator/SpecValidator.java:19-93 | validate returns normally exactly for the well-formed specifications |
| Orchestrator.IndexOfName | src/main/java/io/restapigen/core/orchestrator/GenerationOrchestrator.java:33 | the position of the entry with the name, or -1 exactly when no entry has it |
| Orchestrator.ByName | src/main/java/io/restapigen/core/orchestrator/GenerationOrchestrator.java:61-64 | the lookup map keys every selected name to a plugin of that name |
| Orchestrator.VisitOutcome | src/main/java/io/restapigen/core/orchestrator/GenerationOrchestrator.java:74-98 | a successful visit leaves the visiting set as it found it |
| Orchestrator.PluginOrderer.constructor | src/main/java/io/restapigen/core/orchestrator/GenerationOrchestrator.java:61-67 | the lookup map is ByName of the selection, and the marks and output start empty |
| Orchestrator.PluginOrderer.Visit | src/main/java/io/restapigen/core/orchestrator/GenerationOrchestrator.java:74-98 | the recursive visit with its visiting/visited sets and output list computes VisitOutcome: the error it throws, or the new marks |
| Orchestrator.OrderPlugins | src/main/java/io/restapigen/core/orchestrator/GenerationOrchestrator.java:60-72 | the loop of visits computes OrderOutcome |
| Orchestrator.GenerationOrchestrator.constructor | src/main/java/io/restapigen/core/orchestrator/GenerationOrchestrator.java:29-35 | the registry is RegistryOf(pluginList): a repeated name replaces the earlier entry in place |
| Orchestrator.GenerationOrchestrator.Generate | src/main/java/io/restapigen/core/orchestrator/GenerationOrchestrator.java:37-58 | the method computes GenerationOutcome: validate, select, order, then run each plugin |
| Orchestrator.AppendKeepsOrderInv | src/main/java/io/restapigen/core/orchestrator/GenerationOrchestrator.java:95-97 | appending a plugin whose dependencies are all visited keeps every plugin once and after its dependencies |
| Orchestrator.VisitKeepsOrder | src/main/java/io/restapigen/core/orchestrator/GenerationOrchestrator.java:74-98 | a successful visit keeps the ordering invariant and marks the plugin visited |
| Orchestrator.CycleFromStack | src/main/java/io/restapigen/core/orchestrator/GenerationOrchestrator.java:85-87 | re-entering a plugin still being visited closes a dependency cycle through it |
| Orchestrator.VisitErrors | src/main/java/io/restapigen/core/orchestrator/GenerationOrchestrator.java:85-92 | every error a visit throws is witnessed: a cycle through the named plugin, or a dependency naming no selected plugin |
| Orchestrator.OrderOutcomeSpec | src/main/java/io/restapigen/core/orchestrator/GenerationOrchestrator.java:60-98 | on success every selected plugin appears exactly once and after all of its dependencies, and nothing else appears; on failure the error is witnessed |
| Orchestrator.OrderFailureExplained | src/main/java/io/restapigen/core/orchestrator/GenerationOrchestrator.java:61-92 | a failure is a cycle through a selected plugin, or a missing dependency of a selected plugin that no selected plugin provides, even if such a plugin is loaded but disabled |
| Orchestrator.RegistryShape | src/main/java/io/restapigen/core/orchestrator/GenerationOrchestrator.java:29-35 | the registry holds one plugin per registered name, the last registered under it |
| Orchestrator.RegistryOfDistinct | src/main/java/io/restapigen/core/orchestrator/GenerationOrchestrator.java:29-35 | plugins with distinct names are all kept, in registration order |
| Orchestrator.SortPermutes | src/main/java/io/restapigen/core/orchestrator/GenerationOrchestrator.java:48 | the sort by name is a permutation |
| Orchestrator.SortSorted | src/main/java/io/restapigen/core/orchestrator/GenerationOrchestrator.java:48 | sorting plugins with distinct names orders them strictly by name |
| Orchestrator.SortedUnique | src/main/java/io/restapigen/core/orchestrator/GenerationOrchestrator.java:48 | two strictly sorted lists holding the same plugins are equal |
| Orchestrator.EnabledCount | src/main/java/io/restapigen/core/orchestrator/GenerationOrchestrator.java:47 | the filter keeps each plugin whose name is enabled, as often as it occurs, and drops the others |
| Orchestrator.SelectedSpec | src/main/java/io/restapigen/core/orchestrator/GenerationOrchestrator.java:46-49 | the selection is exactly the registry's enabled plugins, once each, strictly ascending by name |
| Orchestrator.SelectionOrderIndependent | src/main/java/io/restapigen/core/orchestrator/GenerationOrchestrator.java:29-49 | registering the same plugins in any order selects the same list |
| Orchestrator.RunFromSpec | src/main/java/io/restapigen/core/orchestrator/GenerationOrchestrator.java:51-57 | the loop succeeds exactly when no plugin rejects; it then yields each plugin's files concatenated in order, duplicates kept; otherwise it fails at the first rejecting plugin |
| Orchestrator.GenerationSpec | src/main/java/io/restapigen/core/orchestrator/GenerationOrchestrator.java:37-58 | an invalid specification fails before any plugin is touched; a success means a well-formed specification, a successful ordering, and the concatenated output of the ordered selection |
| JsonWriter.HexDigit | src/main/java/io/restapigen/output/json/JsonSpecificationWriter.java:288 | the digits of a `\u00xx` escape are lower-case hexadecimal |
| JsonWriter.UnescapeEscapeChar | src/main/java/io/restapigen/output/json/JsonSpecificationWriter.java:278-292 | a JSON reader decodes each character's escape (quote, backslash, the five short escapes, `\u00xx` below U+0020, the character itself otherwise) back to that character, whatever follows it |
| JsonWriter.EscapeAppend | src/main/java/io/restapigen/output/json/JsonSpecificationWriter.java:276-294 | writeString escapes character by character: the escape of a concatenation is the concatenation of the escapes |
| JsonWriter.EscapeRoundTrip | src/main/java/io/restapigen/output/json/JsonSpecificationWriter.java:273-297 | decoding the body writeString puts between the quotes, per section 7 of RFC 8259, gives the original string back |
| JsonWriter.EscapeIsClean | src/main/java/io/restapigen/output/json/JsonSpecificationWriter.java:278-292 | the body between the quotes holds no raw character below U+0020 |
| JsonWriter.CompactOut | src/main/java/io/restapigen/output/json/JsonSpecificationWriter.java:331-342 | in compact mode, writing a string, a string array, a relationship array, a field object, a fields array, an entity definition or the entities array appends no line break |
| JsonWriter.CompactDocument | src/main/java/io/restapigen/output/json/JsonSpecificationWriter.java:15-56 | the compact document contains no line break and ends with "}" |
| JsonWriter.PrettyDocumentEnd | src/main/java/io/restapigen/output/json/JsonSpecificationWriter.java:49-55 | the pretty document ends with "}" and a final line break |
| JsonWriter.IndentIsTwoSpaces | src/main/java/io/restapigen/output/json/JsonSpecificationWriter.java:331-336 | the indentation at a level is exactly two spaces per level |
| JsonWriter.CompactStringItemsText | src/main/java/io/restapigen/output/json/JsonSpecificationWriter.java:190-198 | after n elements of a compact string array the buffer holds the first n quoted elements in list order joined by ",", plus a comma only if more elements follow |
| JsonWriter.CompactStringArray | src/main/java/io/restapigen/output/json/JsonSpecificationWriter.java:186-204 | a compact string array is "[", the quoted elements in list order separated by "," with no trailing comma, and "]" |
| JsonWriter.Writer.constructor | src/main/java/io/restapigen/output/json/JsonSpecificationWriter.java:315-321 | a new indenter is at level 0 with an empty buffer and the given mode |
| JsonWriter.Writer.Append | src/main/java/io/restapigen/output/json/JsonSpecificationWriter.java:16 | appending to the buffer adds the text at its end and leaves the level unchanged |
| JsonWriter.Writer.Down | src/main/java/io/restapigen/output/json/JsonSpecificationWriter.java:323-325 | the level goes up by one and the buffer is unchanged |
| JsonWriter.Writer.Up | src/main/java/io/restapigen/output/json/JsonSpecificationWriter.java:327-329 | the level goes down by one but never below 0, and the buffer is unchanged |
| JsonWriter.Writer.Indent | src/main/java/io/restapigen/output/json/JsonSpecificationWriter.java:331-336 | two spaces per level are appended in pretty mode and nothing in compact mode |
| JsonWriter.Writer.Newline | src/main/java/io/restapigen/output/json/JsonSpecificationWriter.java:338-342 | a line break is appended in pretty mode and nothing in compact mode |
| JsonWriter.Writer.WriteString | src/main/java/io/restapigen/output/json/JsonSpecificationWriter.java:273-297 | the loop appends the escaped string between double quotes, and null as an empty string |
| JsonWriter.Writer.WriteName | src/main/java/io/restapigen/output/json/JsonSpecificationWriter.java:267-271 | the indentation, the quoted name, then ": " when pretty and ":" when compact |
| JsonWriter.Writer.WriteField | src/main/java/io/restapigen/output/json/JsonSpecificationWriter.java:206-213 | the name, the quoted value, the comma when asked for, then the line break |
| JsonWriter.Writer.WriteBoolField | src/main/java/io/restapigen/output/json/JsonSpecificationWriter.java:215-222 | the name, "true" or "false", the comma when asked for, then the line break |
| JsonWriter.Writer.WriteLastField | src/main/java/io/restapigen/output/json/JsonSpecificationWriter.java:224-227 | the name and "true" or "false", with no comma and no line break |
| JsonWriter.Writer.WriteNullableIntegerField | src/main/java/io/restapigen/output/json/JsonSpecificationWriter.java:229-246 | the name, then `null` for an absent value or its decimal text, the comma when asked for, then the line break |
| JsonWriter.Writer.WriteNullableStringField | src/main/java/io/restapigen/output/json/JsonSpecificationWriter.java:248-265 | the name, then `null` for an absent value or the quoted value, the comma when asked for, then the line break |
| JsonWriter.Writer.WriteStringArray | src/main/java/io/restapigen/output/json/JsonSpecificationWriter.java:186-204 | "[]" for an empty list; otherwise each element on its own line one level deeper, in list order, with commas between them and "]" on a line of its own; the level is restored |
| JsonWriter.Writer.WriteApiObject | src/main/java/io/restapigen/output/json/JsonSpecificationWriter.java:146-151 | resourcePath, crud, pagination and sorting in that order, with the last one ending the object |
| JsonWriter.Writer.BeginObject | src/main/java/io/restapigen/output/json/JsonSpecificationWriter.java:18-20 | "{", one level deeper, then a line break |
| JsonWriter.Writer.Close | src/main/java/io/restapigen/output/json/JsonSpecificationWriter.java:37-41 | one level up, then the closing bracket on a line of its own |
| JsonWriter.Writer.WriteStringArrayField | src/main/java/io/restapigen/output/json/JsonSpecificationWriter.java:160-163 | the name, the string array, a comma and a line break |
| JsonWriter.Writer.WriteConstraints | src/main/java/io/restapigen/output/json/JsonSpecificationWriter.java:165-170 | unique, nullable, min, max, format and encrypted in that order |
| JsonWriter.Writer.WriteFieldObject | src/main/java/io/restapigen/output/json/JsonSpecificationWriter.java:153-184 | the members in the fixed order name, type, validation, unique, nullable, min, max, format, encrypted, enumValues, defaultValue, calculatedExpression, with absent values written as `null` |
| JsonWriter.Writer.WriteRelationshipObject | src/main/java/io/restapigen/output/json/JsonSpecificationWriter.java:127-137 | type, target and fieldName, one level deeper than the braces |
| JsonWriter.Writer.WriteRelationshipArray | src/main/java/io/restapigen/output/json/JsonSpecificationWriter.java:117-144 | "[]" for no relationships; otherwise the objects in list order, separated by commas, one level deeper |
| JsonWriter.Writer.WriteFieldArray | src/main/java/io/restapigen/output/json/JsonSpecificationWriter.java:71-87 | "[]" for no fields; otherwise the field objects in list order, separated by commas, one level deeper |
| JsonWriter.Writer.WriteEntityMember | src/main/java/io/restapigen/output/json/JsonSpecificationWriter.java:63-94 | the "entity" object: name, table, idType and the fields array, then a comma and a line break |
| JsonWriter.Writer.WriteApiMember | src/main/java/io/restapigen/output/json/JsonSpecificationWriter.java:96-106 | the "api" object, then a comma and a line break |
| JsonWriter.Writer.WriteEntityDefinition | src/main/java/io/restapigen/output/json/JsonSpecificationWriter.java:58-115 | the entity, api and relationships members, in that order, one level deeper than the braces |
| JsonWriter.Writer.WriteEntityArray | src/main/java/io/restapigen/output/json/JsonSpecificationWriter.java:25-41 | "[]" for no entities; otherwise the definitions in list order, separated by commas, one level deeper |
| JsonWriter.WriteApiSpecification | src/main/java/io/restapigen/output/json/JsonSpecificationWriter.java:15-56 | the text returned is the document: projectName, basePackage, entities and suggestions in that order, ending with "}" and, when pretty, a line break |
| TemplateSupport.ImportFor | src/main/java/io/restapigen/plugins/TemplateSupport.java:11-15 | an import is needed exactly for BigDecimal, LocalDate and LocalDateTime, and is always one of java.math.BigDecimal, java.time.LocalDate and java.time.LocalDateTime |
| TemplateSupport.ImportsOf | src/main/java/io/restapigen/plugins/TemplateSupport.java:20-29 | the collected imports are only the three known ones, hold no duplicates, and hold an import exactly when some field needs it |
| TemplateSupport.ImportsOfPrefix | src/main/java/io/restapigen/plugins/TemplateSupport.java:20-29 | the imports of a prefix of the fields are a prefix of all the imports, so imports come in the order their first field appears |
| TemplateSupport.CollectImports | src/main/java/io/restapigen/plugins/TemplateSupport.java:20-29 | the loop filling the insertion-ordered set returns ImportsOf the fields |
| TemplateSupport.FieldsBlock | src/main/java/io/restapigen/plugins/TemplateSupport.java:31-40 | the loop returns one "    private T n;" line per field in order, then a blank line when there is any field |
| TemplateSupport.FieldLineCount | src/main/java/io/restapigen/plugins/TemplateSupport.java:34 | one field declaration is exactly one line |
| TemplateSupport.FieldsBlockLines | src/main/java/io/restapigen/plugins/TemplateSupport.java:31-40 | the block has one line per field plus one extra line exactly when the list is non-empty |
| TemplateSupport.Params | src/main/java/io/restapigen/plugins/TemplateSupport.java:45-50 | the constructor parameters are "T n", one per field, in field order |
| TemplateSupport.ConstructorBlock | src/main/java/io/restapigen/plugins/TemplateSupport.java:42-54 | the loop that writes ", " before every parameter but the first produces the parameters joined by ", " and one "this.n = n;" line per field |
| TemplateSupport.TwoParams | src/main/java/io/restapigen/plugins/TemplateSupport.java:47-50 | two fields give "T1 n1, T2 n2" |
| TemplateSupport.Capitalize | src/main/java/io/restapigen/plugins/TemplateSupport.java:82-87 | null and blank input come back unchanged; otherwise the first character is upper-cased and the rest is kept |
| TemplateSupport.CapitalizeIdempotent | src/main/java/io/restapigen/plugins/TemplateSupport.java:82-87 | capitalising twice is capitalising once |
| TemplateSupport.GettersBlock | src/main/java/io/restapigen/plugins/TemplateSupport.java:56-65 | the loop returns one getter per field, in order |
| TemplateSupport.GetterOfLowerName | src/main/java/io/restapigen/plugins/TemplateSupport.java:59-60 | a getter of a field whose name starts with a lower-case letter upper-cases that letter after "get" |
| TemplateSupport.ClassFile | src/main/java/io/restapigen/plugins/TemplateSupport.java:67-80 | the loop returns the package line, one import line per import with a blank line after them when there are any, then the class around the body |
| TemplateSupport.ClassFileFrame | src/main/java/io/restapigen/plugins/TemplateSupport.java:67-80 | the class file starts with its package line and a blank line, and ends with "}" and a line break |
| TemplateSupport.ClassFileWithoutImports | src/main/java/io/restapigen/plugins/TemplateSupport.java:69-76 | without imports, the class declaration follows the package line directly |
| TemplateSupport.ClassFileWithImports | src/main/java/io/restapigen/plugins/TemplateSupport.java:69-75 | with imports, the first import line follows the package line |
| MigrationPlugin.ToSqlTypeCases | src/main/java/io/restapigen/plugins/MigrationGeneratorPlugin.java:169-179 | unknown Java types, and only they, map to VARCHAR(255); Long, and only Long, maps to BIGINT; LocalDateTime, and only it, maps to TIMESTAMP |
| MigrationPlugin.ToSqlTypeInjective | src/main/java/io/restapigen/plugins/MigrationGeneratorPlugin.java:169-179 | distinct mapped Java types get distinct SQL types |
| MigrationPlugin.MigrationFilePathVersion | src/main/java/io/restapigen/plugins/MigrationGeneratorPlugin.java:50-55 | two migration paths of one tool are equal only when their versions are equal, whatever the tables are called |
| MigrationPlugin.VersionAt | src/main/java/io/restapigen/plugins/MigrationGeneratorPlugin.java:50-55 | the version digits follow the directory prefix of the path and a non-digit ends them |
| MigrationPlugin.TableMapKeys | src/main/java/io/restapigen/plugins/MigrationGeneratorPlugin.java:57-63 | the table map has a key for each entity name and no other key |
| MigrationPlugin.TableMapLastWins | src/main/java/io/restapigen/plugins/MigrationGeneratorPlugin.java:57-63 | the table recorded for a name is that of the last entity with the name |
| MigrationPlugin.BuildTableMap | src/main/java/io/restapigen/plugins/MigrationGeneratorPlugin.java:57-63 | the loop of puts returns TableMap of the entities |
| MigrationPlugin.OwningSpec | src/main/java/io/restapigen/plugins/MigrationGeneratorPlugin.java:146-154 | the owning relationships are exactly those of type ManyToOne or OneToOne, taken from the list |
| MigrationPlugin.ForeignKeyColumnsSpec | src/main/java/io/restapigen/plugins/MigrationGeneratorPlugin.java:146-154 | one "fieldName_id BIGINT" column per owning relationship, in relationship order |
| MigrationPlugin.ForeignKeyColumnsEmpty | src/main/java/io/restapigen/plugins/MigrationGeneratorPlugin.java:146-154 | no foreign-key column is added exactly when no relationship is ManyToOne or OneToOne |
| MigrationPlugin.ForeignKeyColumns | src/main/java/io/restapigen/plugins/MigrationGeneratorPlugin.java:146-154 | the loop returns ForeignKeyColumnsOf the relationships |
| MigrationPlugin.ColumnClauses | src/main/java/io/restapigen/plugins/MigrationGeneratorPlugin.java:72-82 | a column carries NOT NULL exactly for a non-nullable field, UNIQUE exactly for a unique field, and DEFAULT with the value exactly for a present, non-blank default value |
| MigrationPlugin.ColumnDecides | src/main/java/io/restapigen/plugins/MigrationGeneratorPlugin.java:72-82 | two fields with the same name, type and column agree on nullability, uniqueness and their written default |
| MigrationPlugin.ColumnsSpec | src/main/java/io/restapigen/plugins/MigrationGeneratorPlugin.java:69-85 | the columns are the id column, then one per field in order, then one per owning relationship |
| MigrationPlugin.ColumnListStartsWithId | src/main/java/io/restapigen/plugins/MigrationGeneratorPlugin.java:86 | the joined column list starts with the indented id column |
| MigrationPlugin.JoinTableShape | src/main/java/io/restapigen/plugins/MigrationGeneratorPlugin.java:156-167 | the join table is named source_target, has the composite primary key of both ids, and ends the statement with ");" and a blank line |
| MigrationPlugin.ForeignKeyReferencesTarget | src/main/java/io/restapigen/plugins/MigrationGeneratorPlugin.java:92-97 | the foreign-key constraint references the id of the target entity's table |
| MigrationPlugin.FieldColumnList | src/main/java/io/restapigen/plugins/MigrationGeneratorPlugin.java:71-84 | the column loop returns one column per field, in order |
| MigrationPlugin.RelationshipStatementList | src/main/java/io/restapigen/plugins/MigrationGeneratorPlugin.java:89-99 | the relationship loop appends a join table for ManyToMany, a foreign key for ManyToOne and OneToOne, and nothing for other types, in order |
| MigrationPlugin.SqlForEntity | src/main/java/io/restapigen/plugins/MigrationGeneratorPlugin.java:65-101 | the Flyway script is the version comment, the CREATE TABLE with the indented columns joined by ",\n", then the relationship statements |
| MigrationPlugin.ColumnNameOfForeignKey | src/main/java/io/restapigen/plugins/MigrationGeneratorPlugin.java:124-127 | the text before the first space of a foreign-key column is "fieldName_id" when the property name has no space |
| MigrationPlugin.LiquibaseFrame | src/main/java/io/restapigen/plugins/MigrationGeneratorPlugin.java:103-144 | the changelog starts with the XML declaration and root element and ends by closing the changeSet and the root element |
| MigrationPlugin.XmlColumnLines | src/main/java/io/restapigen/plugins/MigrationGeneratorPlugin.java:118-122 | one column element per field, in order |
| MigrationPlugin.XmlForeignKeyLines | src/main/java/io/restapigen/plugins/MigrationGeneratorPlugin.java:124-127 | one BIGINT column element per foreign-key column, in order |
| MigrationPlugin.XmlConstraintLines | src/main/java/io/restapigen/plugins/MigrationGeneratorPlugin.java:131-140 | one addForeignKeyConstraint element per owning relationship, in order |
| MigrationPlugin.LiquibaseForEntity | src/main/java/io/restapigen/plugins/MigrationGeneratorPlugin.java:103-144 | the changelog is the changeSet header, the column elements, the closing createTable and the constraints |
| MigrationPlugin.FilesSpec | src/main/java/io/restapigen/plugins/MigrationGeneratorPlugin.java:37-46 | one file per entity, in entity order, the k-th with version k + 1 |
| MigrationPlugin.CollectFiles | src/main/java/io/restapigen/plugins/MigrationGeneratorPlugin.java:37-46 | the loop with its version counter returns Files of the entities |
| MigrationPlugin.GenerateSpec | src/main/java/io/restapigen/plugins/MigrationGeneratorPlugin.java:30-48 | tool "none" in any letter case gives no files; any other tool gives one file per entity, in entity order, the k-th with version k + 1 |
| MigrationPlugin.GeneratedPaths | src/main/java/io/restapigen/plugins/MigrationGeneratorPlugin.java:38-44 | the k-th file lies at the migration path of the k-th entity's table with version k + 1 |
| MigrationPlugin.GeneratedPathsDistinct | src/main/java/io/restapigen/plugins/MigrationGeneratorPlugin.java:37-46 | the files of one run all have different paths |
| MigrationPlugin.Generate | src/main/java/io/restapigen/plugins/MigrationGeneratorPlugin.java:30-48 | generate returns GenerateOf the specification and context |
| ReadmePlugin.GenerateOf | src/main/java/io/restapigen/plugins/ProjectReadmeGeneratorPlugin.java:44 | generate returns exactly one file, README.md |
| ReadmePlugin.ReadmeHead | src/main/java/io/restapigen/plugins/ProjectReadmeGeneratorPlugin.java:26-27 | the README opens with the project name as its title and names the base package |
| ReadmePlugin.SectionsInOrder | src/main/java/io/restapigen/plugins/ProjectReadmeGeneratorPlugin.java:28-39 | the entity sections come in entity order, after the header |
| ReadmePlugin.SectionLists | src/main/java/io/restapigen/plugins/ProjectReadmeGeneratorPlugin.java:29-33 | a section opens with the entity's heading and resource path, then lists its fields in order as "- name (type)" |
| ReadmePlugin.RelationshipsHeaderIff | src/main/java/io/restapigen/plugins/ProjectReadmeGeneratorPlugin.java:34-38 | a "### Relationships" header follows the field lines exactly when the entity has relationships; otherwise the section closes with its empty line |
| ReadmePlugin.SuggestionsHeaderIff | src/main/java/io/restapigen/plugins/ProjectReadmeGeneratorPlugin.java:40-43 | a "## Suggestions" header follows the sections exactly when there are suggestions; otherwise the README ends with the last section |
| ReadmePlugin.EntitySection | src/main/java/io/restapigen/plugins/ProjectReadmeGeneratorPlugin.java:29-38 | the nested field loop and the relationship loop append Section of the entity |
| ReadmePlugin.Generate | src/main/java/io/restapigen/plugins/ProjectReadmeGeneratorPlugin.java:24-45 | the entity loop and the suggestion loop build GenerateOf the specification |
| DocumentationPlugin.GenerateOf | src/main/java/io/restapigen/plugins/DocumentationGeneratorPlugin.java:24-40 | no file exactly when the documentation tool is "none" in any letter case, otherwise one file at src/main/resources/openapi.yaml |
| DocumentationPlugin.OpenApiHead | src/main/java/io/restapigen/plugins/DocumentationGeneratorPlugin.java:29-30 | the document opens with the OpenAPI version, then the title line carrying the project name |
| DocumentationPlugin.PathEntriesInOrder | src/main/java/io/restapigen/plugins/DocumentationGeneratorPlugin.java:32-38 | one path entry per entity, in entity order, after the header |
| DocumentationPlugin.PathEntryShape | src/main/java/io/restapigen/plugins/DocumentationGeneratorPlugin.java:33-37 | an entry opens with the resource path and holds a "List X" and a "Create X" summary |
| DocumentationPlugin.Generate | src/main/java/io/restapigen/plugins/DocumentationGeneratorPlugin.java:24-40 | the entity loop builds GenerateOf the specification and context |

## Left out

- Input and output are not modelled: the command line, the HTTP server, the YAML configuration loader, the plugin loader (class loading and directory scanning) and the zip packaging (`generateZip`). The orchestrator is given its plugin list as an input.
- The template engine and the template-rendered plugins (entity, DTO, repository, service, controller, test, security) are not modelled: their content comes from template files outside the model. A plugin is modelled by its name, its dependency list, its validate hook and its generate operation, the last two left abstract.
- `initialize(context)` of a plugin is not modelled. It returns nothing the orchestrator uses, so only the ordering before any plugin runs is stated.
- The default order of the built-in plugins is not stated: their dependency lists belong to the template-rendered plugins above.
- `extractRelationships` is not defined in the repository's shown source, so relationship extraction is an abstract function parameter. The generator and prompt parser properties hold for every such function.
- The seven extra attributes the generator reads from a parsed field (format, bounds, enum values and so on) are never set by the parser, so they are modelled as absent.
- Regular expressions are modelled as hand-written scanners for the specific patterns. Only '\n' and '\r' count as line terminators (not U+0085, U+2028 or U+2029), and the `\b` word boundary uses ASCII word characters only.
- Case mapping (`toLowerCase`, `toUpperCase`, `Character.toUpperCase`) is modelled for ASCII letters only; other characters are left unchanged.
- Strings are sequences of Unicode scalar values (Dafny's `char`), while a Java `String` is a sequence of UTF-16 code units. For text above U+FFFF the model therefore differs from the program: `Text.LessThan`, the order of `String.compareTo` by which the orchestrator sorts plugin names, puts such characters above U+E000–U+FFFF, where Java's surrogate units sort below them; and lengths, `charAt(0)` in `NameTransforms.Capitalize`, and substring positions count one char where Java counts two units.
- `StringBuilder` is a string that is reassigned, and appending a Java `null` reference does not occur in the modelled code paths.
- The generator-level examples from the repository's tests are not evaluated one by one: the "User with name, email unique, age (Integer) optional" example and the "project inventory" example at the generator level (the suggester-level "Inventory" hint is proved, and so is the "fields: title, authorName, publishedDate" parsing example, by `RequestParsing.BookRequestFields`).
- RequestParsing.PlainWithRequest: stated for letter-only names other than "optional", "nullable" and "unique"; typed tokens, modifiers and " and " in a with-clause are covered by the token-level and split-level members instead.
- JsonWriter.CompactStringArray: list order and comma placement are proved as a text equation for compact string arrays only. For the entity, field and relationship arrays they are stated by the writer methods' specification functions, not as a separate text equation.
- EntityNameSuggester.SuggestIsItemIff: the result is also ["Item"] when the only usable hint is itself "Item", so "only when all three hints are absent" is stated in that form.
- SpecGenerator.BlankRequest: the "Items" suggestion is stated for a request that trims to nothing; a request blank only through Unicode space separators is covered for its entities and names but not for its suggestions.
- GenerationConfig: a `ProjectConfig` component is never null after construction, so the prompt parser's null-or-blank test is modelled as a blank test.

