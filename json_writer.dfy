/** The hand-written JSON writer for an API specification: string escaping per section 7 of
    RFC 8259, a two-space indenter that is either pretty or compact, and the fixed member order of
    every object. Each writer appends to a shared buffer; what the buffer holds after a writer
    runs is given by a function of what it held before, the indenter's mode and level, and the
    value written. */
module JsonWriter {
  import opened Wrappers
  import opened Text
  import opened Domain

  // ---------------------------------------------------------------------------------------
  // String escaping and its inverse (section 7 of RFC 8259).

  /** A lower-case hexadecimal digit, as String.format("%x") prints it. */
  function HexDigit(d: nat): (c: char)
    requires d < 16
    ensures '0' <= c <= '9' || 'a' <= c <= 'f'
  {
    if d < 10 then ('0' as int + d) as char else ('a' as int + d - 10) as char
  }

  /** The escaped form of one character inside a JSON string. */
  function EscapeChar(c: char): (e: string)
    ensures |e| >= 1
  {
    if c == '"' then "\\\""
    else if c == '\\' then "\\\\"
    else if c as int == 0x08 then "\\b"
    else if c as int == 0x0C then "\\f"
    else if c == '\n' then "\\n"
    else if c == '\r' then "\\r"
    else if c == '\t' then "\\t"
    else if c as int <= 0x1F then "\\u00" + [HexDigit(c as int / 16), HexDigit(c as int % 16)]
    else [c]
  }

  /** The body written between the quotes. */
  function Escape(s: string): (e: string)
  {
    Flatten(EscapedChars(s))
  }

  /** The escaped form of each character, in order. */
  function EscapedChars(s: string): seq<string> {
    seq(|s|, i requires 0 <= i < |s| => EscapeChar(s[i]))
  }

  function Flatten(parts: seq<string>): string {
    if parts == [] then [] else parts[0] + Flatten(parts[1..])
  }

  function HexValue(c: char): (r: Option<nat>)
    ensures r.Some? ==> r.value < 16
  {
    if '0' <= c <= '9' then Some(c as int - '0' as int)
    else if 'a' <= c <= 'f' then Some(c as int - 'a' as int + 10)
    else if 'A' <= c <= 'F' then Some(c as int - 'A' as int + 10)
    else None
  }

  /** The character a two-character escape `\e` stands for. */
  function ShortEscape(e: char): Option<char> {
    if e == '"' then Some('"')
    else if e == '\\' then Some('\\')
    else if e == '/' then Some('/')
    else if e == 'b' then Some(0x08 as char)
    else if e == 'f' then Some(0x0C as char)
    else if e == 'n' then Some('\n')
    else if e == 'r' then Some('\r')
    else if e == 't' then Some('\t')
    else None
  }

  /** The character a `\uXXXX` escape stands for; lone surrogates are not characters here. */
  function CodeUnit(h: string): Option<char>
    requires |h| == 4
  {
    match (HexValue(h[0]), HexValue(h[1]), HexValue(h[2]), HexValue(h[3]))
    case (Some(a), Some(b), Some(c), Some(d)) =>
      var v := ((a * 16 + b) * 16 + c) * 16 + d;
      if 0xD800 <= v < 0xE000 then None else Some(v as char)
    case _ => None
  }

  function Prepend(c: char, rest: Option<string>): Option<string> {
    match rest
    case None => None
    case Some(t) => Some([c] + t)
  }

  /** A JSON reader's decoding of a string body: None when the body is not a valid one (a raw
      quote or control character, or a malformed escape). */
  function Unescape(body: string): Option<string>
    decreases |body|
  {
    if body == [] then Some([])
    else if body[0] == '\\' then
      if |body| >= 2 && ShortEscape(body[1]).Some? then Prepend(ShortEscape(body[1]).value, Unescape(body[2..]))
      else if |body| >= 6 && body[1] == 'u' && CodeUnit(body[2..6]).Some? then Prepend(CodeUnit(body[2..6]).value, Unescape(body[6..]))
      else None
    else if body[0] == '"' || body[0] < ' ' then None
    else Prepend(body[0], Unescape(body[1..]))
  }

  lemma UnescapeEscapeChar(c: char, rest: string)
    ensures Unescape(EscapeChar(c) + rest) == Prepend(c, Unescape(rest))
  {
    var e := EscapeChar(c);
    var body := e + rest;
    if c == '"' || c == '\\' || c as int == 0x08 || c as int == 0x0C || c == '\n' || c == '\r' || c == '\t' {
      assert body[0] == '\\' && body[2..] == rest;
    } else if c as int <= 0x1F {
      var hi := c as int / 16;
      var lo := c as int % 16;
      assert body[0] == '\\' && body[1] == 'u';
      assert body[2..6] == ['0', '0', HexDigit(hi), HexDigit(lo)];
      assert HexValue(HexDigit(hi)) == Some(hi) && HexValue(HexDigit(lo)) == Some(lo);
      assert body[6..] == rest;
    } else {
      assert body[0] == c && body[1..] == rest;
    }
  }

  lemma {:induction false} FlattenAppend(x: seq<string>, y: seq<string>)
    ensures Flatten(x + y) == Flatten(x) + Flatten(y)
  {
    if x == [] {
      assert x + y == y;
    } else {
      assert (x + y)[0] == x[0] && (x + y)[1..] == x[1..] + y;
      FlattenAppend(x[1..], y);
    }
  }

  lemma EscapeAppend(a: string, b: string)
    ensures Escape(a + b) == Escape(a) + Escape(b)
  {
    assert EscapedChars(a + b) == EscapedChars(a) + EscapedChars(b);
    FlattenAppend(EscapedChars(a), EscapedChars(b));
  }

  lemma EscapeCons(s: string)
    requires s != []
    ensures Escape(s) == EscapeChar(s[0]) + Escape(s[1..])
  {
    assert EscapedChars(s) == [EscapeChar(s[0])] + EscapedChars(s[1..]);
  }

  lemma EscapeOne(c: char)
    ensures Escape([c]) == EscapeChar(c)
  {
    var parts := EscapedChars([c]);
    assert parts == [EscapeChar(c)];
    assert parts[1..] == [];
    assert Flatten(parts) == parts[0] + Flatten(parts[1..]);
  }

  lemma EscapeSnoc(s: string, i: nat)
    requires i < |s|
    ensures Escape(s[..i + 1]) == Escape(s[..i]) + EscapeChar(s[i])
  {
    assert s[..i + 1] == s[..i] + [s[i]];
    EscapeAppend(s[..i], [s[i]]);
    EscapeOne(s[i]);
  }

  /** Decoding what writeString puts between the quotes gives the string back. */
  lemma {:induction false} EscapeRoundTrip(s: string)
    ensures Unescape(Escape(s)) == Some(s)
  {
    if s != [] {
      EscapeCons(s);
      EscapeRoundTrip(s[1..]);
      UnescapeEscapeChar(s[0], Escape(s[1..]));
      assert [s[0]] + s[1..] == s;
    } else {
      assert EscapedChars(s) == [];
    }
  }

  /** writeString never puts a raw control character, quote or line break into the output:
      every character it writes is printable or part of an escape. */
  lemma {:induction false} EscapeIsClean(s: string)
    ensures forall k :: 0 <= k < |Escape(s)| ==> Escape(s)[k] >= ' '
  {
    if s == [] {
      assert EscapedChars(s) == [];
    } else {
      EscapeCons(s);
      EscapeIsClean(s[1..]);
      var e := EscapeChar(s[0]);
      assert forall k :: 0 <= k < |e| ==> e[k] >= ' ';
    }
  }

  // ---------------------------------------------------------------------------------------
  // What each writer appends, as a tree of the pieces it appends in order.

  /** The pieces appended to the buffer, in order; Render concatenates them. */
  datatype Doc = Empty | Cat(before: Doc, piece: string)

  function Render(d: Doc): string {
    match d
    case Empty => []
    case Cat(before, piece) => Render(before) + piece
  }

  /** What Indent.write appends: two spaces per level, and only when pretty. */
  function IndentOut(out: Doc, pretty: bool, level: nat): Doc {
    if pretty then Cat(out, Repeat("  ", level)) else out
  }

  /** What Indent.newline appends. */
  function NewlineOut(out: Doc, pretty: bool): Doc {
    if pretty then Cat(out, "\n") else out
  }

  /** A comma, when asked for. */
  function CommaOut(out: Doc, comma: bool): Doc {
    if comma then Cat(out, ",") else out
  }

  /** `body` between double quotes. */
  function QuotedOut(out: Doc, body: string): Doc {
    Cat(Cat(Cat(out, "\""), body), "\"")
  }

  /** The closing bracket or brace of a non-empty array or object at `level`, on a line of its
      own. */
  function CloseOut(out: Doc, pretty: bool, level: nat, bracket: string): Doc {
    Cat(IndentOut(NewlineOut(out, pretty), pretty, level), bracket)
  }

  /** writeObjectStart, indent.down and indent.newline: the opening brace of an object. */
  function OpenOut(out: Doc, pretty: bool): Doc {
    NewlineOut(Cat(out, "{"), pretty)
  }

  /** Integer.toString, or "null". */
  function IntegerText(value: Option<int>): string {
    match value
    case None => "null"
    case Some(v) => IntToString(v)
  }

  /** The values whose writers the others are built from; Out gives what writing one
      appends. */
  datatype Part =
    | Str(value: Option<string>)
    | StringArray(values: seq<string>)
    | RelationshipArray(rels: seq<RelationshipSpec>)
    | FieldObject(field: FieldSpec)
    | FieldArray(fields: seq<FieldSpec>)
    | Definition(definition: EntityDefinition)
    | DefinitionArray(entities: seq<EntityDefinition>)

  /** How deep a part's nesting of other parts goes. */
  function Rank(part: Part): nat {
    match part
    case Str(_) => 0
    case StringArray(_) => 2
    case RelationshipArray(_) => 2
    case FieldObject(_) => 3
    case FieldArray(_) => 4
    case Definition(_) => 5
    case DefinitionArray(_) => 6
  }

  /** What writing `part` at `level` appends to `out`. A string (writeString) is its escaped
      value between quotes, and null is written as an empty string. */
  function Out(out: Doc, pretty: bool, level: nat, part: Part): Doc
    decreases Rank(part), 20, 0
  {
    match part
    case Str(value) => QuotedOut(out, Escape(value.GetOr([])))
    case StringArray(values) => StringArrayOut(out, pretty, level, values)
    case RelationshipArray(rels) => RelationshipArrayOut(out, pretty, level, rels)
    case FieldObject(field) => FieldObjectOut(out, pretty, level, field)
    case FieldArray(fields) => FieldArrayOut(out, pretty, level, fields)
    case Definition(definition) => EntityDefinitionOut(out, pretty, level, definition)
    case DefinitionArray(entities) => EntityArrayOut(out, pretty, level, entities)
  }

  /** writeString. */
  function StringOut(out: Doc, value: Option<string>): Doc
    decreases 0, 21, 0
  {
    Out(out, false, 0, Str(value))
  }

  /** writeName: the member name as a string, then the colon. */
  function NameOut(out: Doc, pretty: bool, level: nat, name: string): Doc
    decreases 1, 0, 0
  {
    Cat(StringOut(IndentOut(out, pretty, level), Some(name)), if pretty then ": " else ":")
  }

  function FieldOut(out: Doc, pretty: bool, level: nat, name: string, value: string, comma: bool): Doc
    decreases 1, 1, 0
  {
    NewlineOut(CommaOut(StringOut(NameOut(out, pretty, level, name), Some(value)), comma), pretty)
  }

  function BoolFieldOut(out: Doc, pretty: bool, level: nat, name: string, value: bool, comma: bool): Doc
    decreases 1, 1, 0
  {
    NewlineOut(CommaOut(Cat(NameOut(out, pretty, level, name), BoolToString(value)), comma), pretty)
  }

  function LastFieldOut(out: Doc, pretty: bool, level: nat, name: string, value: bool): Doc
    decreases 1, 1, 0
  {
    Cat(NameOut(out, pretty, level, name), BoolToString(value))
  }

  function NullableIntegerFieldOut(out: Doc, pretty: bool, level: nat, name: string, value: Option<int>, comma: bool): Doc
    decreases 1, 1, 0
  {
    NewlineOut(CommaOut(Cat(NameOut(out, pretty, level, name), IntegerText(value)), comma), pretty)
  }

  function NullableStringFieldOut(out: Doc, pretty: bool, level: nat, name: string, value: Option<string>, comma: bool): Doc
    decreases 1, 1, 0
  {
    var named := NameOut(out, pretty, level, name);
    NewlineOut(CommaOut(if value.None? then Cat(named, "null") else StringOut(named, value), comma), pretty)
  }

  /** writeApiObject: the members of the api object at `level`; the last has no line break. */
  function ApiObjectOut(out: Doc, pretty: bool, level: nat, api: ApiSpec): Doc
    decreases 1, 2, 0
  {
    var o := FieldOut(out, pretty, level, "resourcePath", api.resourcePath, true);
    var o := BoolFieldOut(o, pretty, level, "crud", api.crud, true);
    var o := BoolFieldOut(o, pretty, level, "pagination", api.pagination, true);
    LastFieldOut(o, pretty, level, "sorting", api.sorting)
  }

  /** The members of a field object from "unique" to "encrypted", at `level`. */
  function ConstraintsOut(out: Doc, pretty: bool, level: nat, field: FieldSpec): Doc
    decreases 1, 2, 0
  {
    var o := BoolFieldOut(out, pretty, level, "unique", field.unique, true);
    var o := BoolFieldOut(o, pretty, level, "nullable", field.nullable, true);
    var o := NullableIntegerFieldOut(o, pretty, level, "min", field.min, true);
    var o := NullableIntegerFieldOut(o, pretty, level, "max", field.max, true);
    var o := NullableStringFieldOut(o, pretty, level, "format", field.format, true);
    BoolFieldOut(o, pretty, level, "encrypted", field.encrypted, true)
  }

  /** The "api" member of an entity definition at `level`, then a comma and a line break. */
  function ApiMemberOut(out: Doc, pretty: bool, level: nat, api: ApiSpec): Doc
    decreases 1, 3, 0
  {
    var o := OpenOut(NameOut(out, pretty, level, "api"), pretty);
    var o := ApiObjectOut(o, pretty, level + 1, api);
    NewlineOut(Cat(CloseOut(o, pretty, level, "}"), ","), pretty)
  }

  /** The first n elements of a string array, each on a new line at `level` and followed by a
      comma unless it is the last element of the array. */
  function StringItemsOut(out: Doc, pretty: bool, level: nat, values: seq<string>, n: nat): Doc
    requires n <= |values|
    decreases 1, 1, n
  {
    if n == 0 then out
    else
      var before := StringItemsOut(out, pretty, level, values, n - 1);
      CommaOut(StringOut(IndentOut(NewlineOut(before, pretty), pretty, level), Some(values[n - 1])), n < |values|)
  }

  /** writeStringArray at `level`: elements one level deeper; an empty array is "[]". */
  function StringArrayOut(out: Doc, pretty: bool, level: nat, values: seq<string>): Doc
    decreases 1, 2, 0
  {
    if values == [] then Cat(Cat(out, "["), "]")
    else CloseOut(StringItemsOut(Cat(out, "["), pretty, level + 1, values, |values|), pretty, level, "]")
  }

  /** One relationship object at `level`: type, target and fieldName one level deeper. */
  function RelationshipObjectOut(out: Doc, pretty: bool, level: nat, rel: RelationshipSpec): Doc
    decreases 1, 2, 0
  {
    var inner := level + 1;
    var o := OpenOut(out, pretty);
    var o := FieldOut(o, pretty, inner, "type", rel.relType, true);
    var o := FieldOut(o, pretty, inner, "target", rel.target, true);
    var o := StringOut(NameOut(o, pretty, inner, "fieldName"), Some(rel.fieldName));
    CloseOut(o, pretty, level, "}")
  }

  function RelationshipItemsOut(out: Doc, pretty: bool, level: nat, rels: seq<RelationshipSpec>, n: nat): Doc
    requires n <= |rels|
    decreases 1, 3, n
  {
    if n == 0 then out
    else
      var before := CommaOut(RelationshipItemsOut(out, pretty, level, rels, n - 1), n > 1);
      RelationshipObjectOut(IndentOut(NewlineOut(before, pretty), pretty, level), pretty, level, rels[n - 1])
  }

  /** The relationships array at `level`; its objects are one level deeper. */
  function RelationshipArrayOut(out: Doc, pretty: bool, level: nat, rels: seq<RelationshipSpec>): Doc
    decreases 1, 4, 0
  {
    if rels == [] then Cat(Cat(out, "["), "]")
    else CloseOut(RelationshipItemsOut(Cat(out, "["), pretty, level + 1, rels, |rels|), pretty, level, "]")
  }

  /** A string-array member followed by a comma and a line break. */
  function StringArrayFieldOut(out: Doc, pretty: bool, level: nat, name: string, values: seq<string>): Doc
    decreases 2, 21, 0
  {
    NewlineOut(Cat(Out(NameOut(out, pretty, level, name), pretty, level, StringArray(values)), ","), pretty)
  }

  /** writeFieldObject at `level`; its members are one level deeper. The last member still ends
      with a line break, so in pretty mode a blank line precedes the closing brace. */
  function FieldObjectOut(out: Doc, pretty: bool, level: nat, field: FieldSpec): Doc
    decreases 3, 0, 0
  {
    var inner := level + 1;
    var o := OpenOut(out, pretty);
    var o := FieldOut(o, pretty, inner, "name", field.name, true);
    var o := FieldOut(o, pretty, inner, "type", field.fieldType, true);
    var o := StringArrayFieldOut(o, pretty, inner, "validation", field.validation);
    var o := ConstraintsOut(o, pretty, inner, field);
    var o := StringArrayFieldOut(o, pretty, inner, "enumValues", field.enumValues);
    var o := NullableStringFieldOut(o, pretty, inner, "defaultValue", field.defaultValue, true);
    var o := NullableStringFieldOut(o, pretty, inner, "calculatedExpression", field.calculatedExpression, false);
    CloseOut(o, pretty, level, "}")
  }

  function FieldItemsOut(out: Doc, pretty: bool, level: nat, fields: seq<FieldSpec>, n: nat): Doc
    requires n <= |fields|
    decreases 4, 0, n
  {
    if n == 0 then out
    else
      var before := CommaOut(FieldItemsOut(out, pretty, level, fields, n - 1), n > 1);
      Out(IndentOut(NewlineOut(before, pretty), pretty, level), pretty, level, FieldObject(fields[n - 1]))
  }

  /** The fields array at `level`; its objects are one level deeper. */
  function FieldArrayOut(out: Doc, pretty: bool, level: nat, fields: seq<FieldSpec>): Doc
    decreases 4, 1, 0
  {
    if fields == [] then Cat(Cat(out, "["), "]")
    else CloseOut(FieldItemsOut(Cat(out, "["), pretty, level + 1, fields, |fields|), pretty, level, "]")
  }

  /** The "entity" member of an entity definition at `level`: its object, whose members
      (including the fields array) are one level deeper, then a comma and a line break. */
  function EntityMemberOut(out: Doc, pretty: bool, level: nat, entity: EntitySpec): Doc
    decreases 5, 0, 0
  {
    var inner := level + 1;
    var o := OpenOut(NameOut(out, pretty, level, "entity"), pretty);
    var o := FieldOut(o, pretty, inner, "name", entity.name, true);
    var o := FieldOut(o, pretty, inner, "table", entity.table, true);
    var o := FieldOut(o, pretty, inner, "idType", entity.idType, true);
    var o := Out(NameOut(o, pretty, inner, "fields"), pretty, inner, FieldArray(entity.fields));
    NewlineOut(Cat(CloseOut(o, pretty, level, "}"), ","), pretty)
  }

  /** writeEntityDefinition at `level`: the entity object, the api object and the relationship
      array, one level deeper. */
  function EntityDefinitionOut(out: Doc, pretty: bool, level: nat, definition: EntityDefinition): Doc
    decreases 5, 1, 0
  {
    var inner := level + 1;
    var o := OpenOut(out, pretty);
    var o := EntityMemberOut(o, pretty, inner, definition.entity);
    var o := ApiMemberOut(o, pretty, inner, definition.api);
    var o := Out(NameOut(o, pretty, inner, "relationships"), pretty, inner, RelationshipArray(definition.relationships));
    CloseOut(o, pretty, level, "}")
  }

  function EntityItemsOut(out: Doc, pretty: bool, level: nat, entities: seq<EntityDefinition>, n: nat): Doc
    requires n <= |entities|
    decreases 6, 0, n
  {
    if n == 0 then out
    else
      var before := CommaOut(EntityItemsOut(out, pretty, level, entities, n - 1), n > 1);
      Out(IndentOut(NewlineOut(before, pretty), pretty, level), pretty, level, Definition(entities[n - 1]))
  }

  /** The entities array at `level`; its objects are one level deeper. */
  function EntityArrayOut(out: Doc, pretty: bool, level: nat, entities: seq<EntityDefinition>): Doc
    decreases 6, 1, 0
  {
    if entities == [] then Cat(Cat(out, "["), "]")
    else CloseOut(EntityItemsOut(Cat(out, "["), pretty, level + 1, entities, |entities|), pretty, level, "]")
  }

  /** writeApiSpecification, as pieces. After the suggestions a line break is written both
      before and after the level is lowered, so the pretty document ends in a blank line and
      "}" and a final line break. */
  function DocumentOut(spec: ApiSpecification, pretty: bool): Doc {
    var o := OpenOut(Empty, pretty);
    var o := FieldOut(o, pretty, 1, "projectName", spec.projectName, true);
    var o := FieldOut(o, pretty, 1, "basePackage", spec.basePackage, true);
    var o := NewlineOut(Cat(Out(NameOut(o, pretty, 1, "entities"), pretty, 1, DefinitionArray(spec.entities)), ","), pretty);
    var o := NewlineOut(Out(NameOut(o, pretty, 1, "suggestions"), pretty, 1, StringArray(spec.suggestions)), pretty);
    var o := Cat(NewlineOut(o, pretty), "}");
    if pretty then Cat(o, "\n") else o
  }

  /** The JSON text writeApiSpecification returns. */
  function DocumentText(spec: ApiSpecification, pretty: bool): string {
    Render(DocumentOut(spec, pretty))
  }

  // ---------------------------------------------------------------------------------------
  // The shape of the document in each mode.

  /** No piece appended contains a line break. */
  predicate OneLine(d: Doc) {
    match d
    case Empty => true
    case Cat(before, piece) => OneLine(before) && '\n' !in piece
  }

  lemma {:induction false} OneLineRender(d: Doc)
    requires OneLine(d)
    ensures '\n' !in Render(d)
  {
    match d
    case Empty =>
    case Cat(before, _) => OneLineRender(before);
  }

  /** An escaped string holds no line break: writeString writes "\n" as an escape. */
  lemma CompactQuoted(out: Doc, s: string)
    requires OneLine(out)
    ensures OneLine(QuotedOut(out, Escape(s)))
  {
    var e := Escape(s);
    EscapeIsClean(s);
    forall k | 0 <= k < |e| ensures e[k] != '\n' { }
  }

  lemma CompactString(out: Doc, value: Option<string>)
    requires OneLine(out)
    ensures OneLine(StringOut(out, value))
  {
    assert StringOut(out, value) == QuotedOut(out, Escape(value.GetOr([])));
    CompactQuoted(out, value.GetOr([]));
  }

  lemma CompactName(out: Doc, level: nat, name: string)
    requires OneLine(out)
    ensures OneLine(NameOut(out, false, level, name))
  {
    CompactString(out, Some(name));
  }

  lemma CompactField(out: Doc, level: nat, name: string, value: string, comma: bool)
    requires OneLine(out)
    ensures OneLine(FieldOut(out, false, level, name, value, comma))
  {
    CompactName(out, level, name);
    CompactString(NameOut(out, false, level, name), Some(value));
  }

  lemma CompactBoolField(out: Doc, level: nat, name: string, value: bool, comma: bool)
    requires OneLine(out)
    ensures OneLine(BoolFieldOut(out, false, level, name, value, comma))
    ensures OneLine(LastFieldOut(out, false, level, name, value))
  {
    CompactName(out, level, name);
  }

  lemma CompactIntegerField(out: Doc, level: nat, name: string, value: Option<int>, comma: bool)
    requires OneLine(out)
    ensures OneLine(NullableIntegerFieldOut(out, false, level, name, value, comma))
  {
    CompactName(out, level, name);
    if value.Some? {
      var v := value.value;
      var digits := NatToString(if v < 0 then -v else v);
      assert '\n' !in digits by {
        forall k | 0 <= k < |digits| ensures digits[k] != '\n' {
          assert IsDigit(digits[k]);
        }
      }
      assert IntToString(v) == if v < 0 then "-" + digits else digits;
    }
  }

  lemma CompactStringField(out: Doc, level: nat, name: string, value: Option<string>, comma: bool)
    requires OneLine(out)
    ensures OneLine(NullableStringFieldOut(out, false, level, name, value, comma))
  {
    CompactName(out, level, name);
    if value.Some? {
      CompactString(NameOut(out, false, level, name), Some(value.value));
    }
  }

  lemma CompactStringItems(out: Doc, level: nat, values: seq<string>, n: nat)
    requires OneLine(out) && n <= |values|
    ensures OneLine(StringItemsOut(out, false, level, values, n))
    decreases 1, 1, n
  {
    if n > 0 {
      CompactStringItems(out, level, values, n - 1);
      CompactString(StringItemsOut(out, false, level, values, n - 1), Some(values[n - 1]));
    }
  }

  lemma CompactRelationshipItems(out: Doc, level: nat, rels: seq<RelationshipSpec>, n: nat)
    requires OneLine(out) && n <= |rels|
    ensures OneLine(RelationshipItemsOut(out, false, level, rels, n))
    decreases 1, 1, n
  {
    if n > 0 {
      CompactRelationshipItems(out, level, rels, n - 1);
      var rel := rels[n - 1];
      var o := OpenOut(CommaOut(RelationshipItemsOut(out, false, level, rels, n - 1), n > 1), false);
      CompactField(o, level + 1, "type", rel.relType, true);
      o := FieldOut(o, false, level + 1, "type", rel.relType, true);
      CompactField(o, level + 1, "target", rel.target, true);
      o := FieldOut(o, false, level + 1, "target", rel.target, true);
      CompactName(o, level + 1, "fieldName");
      CompactString(NameOut(o, false, level + 1, "fieldName"), Some(rel.fieldName));
    }
  }

  lemma CompactFieldObject(out: Doc, level: nat, field: FieldSpec)
    requires OneLine(out)
    ensures OneLine(FieldObjectOut(out, false, level, field))
    decreases 3, 0, 0
  {
    var inner := level + 1;
    var o := OpenOut(out, false);
    CompactField(o, inner, "name", field.name, true);
    o := FieldOut(o, false, inner, "name", field.name, true);
    CompactField(o, inner, "type", field.fieldType, true);
    o := FieldOut(o, false, inner, "type", field.fieldType, true);
    CompactName(o, inner, "validation");
    CompactOut(NameOut(o, false, inner, "validation"), inner, StringArray(field.validation));
    o := StringArrayFieldOut(o, false, inner, "validation", field.validation);
    var c := o;
    CompactBoolField(o, inner, "unique", field.unique, true);
    o := BoolFieldOut(o, false, inner, "unique", field.unique, true);
    CompactBoolField(o, inner, "nullable", field.nullable, true);
    o := BoolFieldOut(o, false, inner, "nullable", field.nullable, true);
    CompactIntegerField(o, inner, "min", field.min, true);
    o := NullableIntegerFieldOut(o, false, inner, "min", field.min, true);
    CompactIntegerField(o, inner, "max", field.max, true);
    o := NullableIntegerFieldOut(o, false, inner, "max", field.max, true);
    CompactStringField(o, inner, "format", field.format, true);
    o := NullableStringFieldOut(o, false, inner, "format", field.format, true);
    CompactBoolField(o, inner, "encrypted", field.encrypted, true);
    o := BoolFieldOut(o, false, inner, "encrypted", field.encrypted, true);
    assert o == ConstraintsOut(c, false, inner, field);
    CompactName(o, inner, "enumValues");
    CompactOut(NameOut(o, false, inner, "enumValues"), inner, StringArray(field.enumValues));
    o := StringArrayFieldOut(o, false, inner, "enumValues", field.enumValues);
    CompactStringField(o, inner, "defaultValue", field.defaultValue, true);
    o := NullableStringFieldOut(o, false, inner, "defaultValue", field.defaultValue, true);
    CompactStringField(o, inner, "calculatedExpression", field.calculatedExpression, false);
  }

  lemma CompactFieldItems(out: Doc, level: nat, fields: seq<FieldSpec>, n: nat)
    requires OneLine(out) && n <= |fields|
    ensures OneLine(FieldItemsOut(out, false, level, fields, n))
    decreases 4, 0, n
  {
    if n > 0 {
      CompactFieldItems(out, level, fields, n - 1);
      CompactOut(CommaOut(FieldItemsOut(out, false, level, fields, n - 1), n > 1), level, FieldObject(fields[n - 1]));
    }
  }

  lemma CompactEntityMember(out: Doc, level: nat, entity: EntitySpec)
    requires OneLine(out)
    ensures OneLine(EntityMemberOut(out, false, level, entity))
    decreases 4, 2, 0
  {
    var inner := level + 1;
    CompactName(out, level, "entity");
    var o := OpenOut(NameOut(out, false, level, "entity"), false);
    CompactField(o, inner, "name", entity.name, true);
    o := FieldOut(o, false, inner, "name", entity.name, true);
    CompactField(o, inner, "table", entity.table, true);
    o := FieldOut(o, false, inner, "table", entity.table, true);
    CompactField(o, inner, "idType", entity.idType, true);
    o := FieldOut(o, false, inner, "idType", entity.idType, true);
    CompactName(o, inner, "fields");
    CompactOut(NameOut(o, false, inner, "fields"), inner, FieldArray(entity.fields));
  }

  lemma CompactDefinition(out: Doc, level: nat, definition: EntityDefinition)
    requires OneLine(out)
    ensures OneLine(EntityDefinitionOut(out, false, level, definition))
    decreases 5, 0, 0
  {
    var inner := level + 1;
    var o := OpenOut(out, false);
    CompactEntityMember(o, inner, definition.entity);
    o := EntityMemberOut(o, false, inner, definition.entity);
    var api := definition.api;
    CompactName(o, inner, "api");
    var a := OpenOut(NameOut(o, false, inner, "api"), false);
    CompactField(a, inner + 1, "resourcePath", api.resourcePath, true);
    a := FieldOut(a, false, inner + 1, "resourcePath", api.resourcePath, true);
    CompactBoolField(a, inner + 1, "crud", api.crud, true);
    a := BoolFieldOut(a, false, inner + 1, "crud", api.crud, true);
    CompactBoolField(a, inner + 1, "pagination", api.pagination, true);
    a := BoolFieldOut(a, false, inner + 1, "pagination", api.pagination, true);
    CompactBoolField(a, inner + 1, "sorting", api.sorting, true);
    assert ApiObjectOut(OpenOut(NameOut(o, false, inner, "api"), false), false, inner + 1, api)
        == LastFieldOut(a, false, inner + 1, "sorting", api.sorting);
    o := ApiMemberOut(o, false, inner, api);
    CompactName(o, inner, "relationships");
    CompactOut(NameOut(o, false, inner, "relationships"), inner, RelationshipArray(definition.relationships));
  }

  lemma CompactEntityItems(out: Doc, level: nat, entities: seq<EntityDefinition>, n: nat)
    requires OneLine(out) && n <= |entities|
    ensures OneLine(EntityItemsOut(out, false, level, entities, n))
    decreases 6, 0, n
  {
    if n > 0 {
      CompactEntityItems(out, level, entities, n - 1);
      CompactOut(CommaOut(EntityItemsOut(out, false, level, entities, n - 1), n > 1), level, Definition(entities[n - 1]));
    }
  }

  /** In compact mode no writer appends a line break. */
  lemma CompactOut(out: Doc, level: nat, part: Part)
    requires OneLine(out)
    ensures OneLine(Out(out, false, level, part))
    decreases Rank(part), 1, 0
  {
    match part
    case Str(value) => CompactQuoted(out, value.GetOr([]));
    case StringArray(values) =>
      if values != [] {
        CompactStringItems(Cat(out, "["), level + 1, values, |values|);
      }
    case RelationshipArray(rels) =>
      if rels != [] {
        CompactRelationshipItems(Cat(out, "["), level + 1, rels, |rels|);
      }
    case FieldObject(field) => CompactFieldObject(out, level, field);
    case FieldArray(fields) =>
      if fields != [] {
        CompactFieldItems(Cat(out, "["), level + 1, fields, |fields|);
      }
    case Definition(definition) => CompactDefinition(out, level, definition);
    case DefinitionArray(entities) =>
      if entities != [] {
        CompactEntityItems(Cat(out, "["), level + 1, entities, |entities|);
      }
  }

  /** The compact document is one line, without any line break, ending with "}". */
  lemma CompactDocument(spec: ApiSpecification)
    ensures '\n' !in DocumentText(spec, false) && EndsWith(DocumentText(spec, false), "}")
  {
    var o := OpenOut(Empty, false);
    CompactField(o, 1, "projectName", spec.projectName, true);
    o := FieldOut(o, false, 1, "projectName", spec.projectName, true);
    CompactField(o, 1, "basePackage", spec.basePackage, true);
    o := FieldOut(o, false, 1, "basePackage", spec.basePackage, true);
    CompactName(o, 1, "entities");
    CompactOut(NameOut(o, false, 1, "entities"), 1, DefinitionArray(spec.entities));
    o := NewlineOut(Cat(Out(NameOut(o, false, 1, "entities"), false, 1, DefinitionArray(spec.entities)), ","), false);
    CompactName(o, 1, "suggestions");
    CompactOut(NameOut(o, false, 1, "suggestions"), 1, StringArray(spec.suggestions));
    var doc := DocumentOut(spec, false);
    OneLineRender(doc);
    assert doc.Cat? && doc.piece == "}";
    EndsWithAppend(Render(doc.before), "}");
  }

  /** The pretty document ends with "}" and a final line break. */
  lemma PrettyDocumentEnd(spec: ApiSpecification)
    ensures EndsWith(DocumentText(spec, true), "}\n")
  {
    var doc := DocumentOut(spec, true);
    assert doc.Cat? && doc.before.Cat? && doc.before.piece == "}" && doc.piece == "\n";
    var rest := Render(doc.before.before);
    assert Render(doc) == rest + "}\n";
    EndsWithAppend(rest, "}\n");
  }

  /** Indent.write in pretty mode: two spaces per level and nothing else. */
  lemma {:induction false} IndentIsTwoSpaces(level: nat)
    ensures |Repeat("  ", level)| == 2 * level
    ensures forall k :: 0 <= k < |Repeat("  ", level)| ==> Repeat("  ", level)[k] == ' '
  {
    if level > 0 {
      IndentIsTwoSpaces(level - 1);
    }
  }

  /** What writeString writes for one array element. */
  function Quoted(s: string): string {
    "\"" + Escape(s) + "\""
  }

  function QuotedAll(values: seq<string>): (r: seq<string>)
    ensures |r| == |values|
    ensures forall i :: 0 <= i < |values| ==> r[i] == Quoted(values[i])
  {
    seq(|values|, i requires 0 <= i < |values| => Quoted(values[i]))
  }

  lemma RenderQuoted(out: Doc, s: string)
    ensures Render(QuotedOut(out, Escape(s))) == Render(out) + Quoted(s)
  {
    var open := Cat(Cat(out, "\""), Escape(s));
    assert Render(open) == Render(out) + "\"" + Escape(s);
  }

  /** One more element of a compact string array: its quoted form, then a comma unless it ends
      the array. */
  lemma CompactStringItem(out: Doc, level: nat, values: seq<string>, n: nat)
    requires 0 < n <= |values|
    ensures Render(StringItemsOut(out, false, level, values, n))
         == Render(StringItemsOut(out, false, level, values, n - 1)) + Quoted(values[n - 1])
            + (if n < |values| then "," else "")
  {
    var before := StringItemsOut(out, false, level, values, n - 1);
    var quoted := QuotedOut(before, Escape(values[n - 1]));
    RenderQuoted(before, values[n - 1]);
    assert StringOut(before, Some(values[n - 1])) == quoted;
    assert StringItemsOut(out, false, level, values, n) == CommaOut(quoted, n < |values|);
  }

  /** The first n elements of a compact string array: the quoted elements in list order joined
      by ",", and a comma after the last of them unless it ends the array. */
  lemma {:induction false} CompactStringItemsText(out: Doc, level: nat, values: seq<string>, n: nat)
    requires n <= |values|
    ensures Render(StringItemsOut(out, false, level, values, n))
         == Render(out) + Join(QuotedAll(values[..n]), ",") + (if 0 < n < |values| then "," else "")
  {
    if n > 0 {
      CompactStringItemsText(out, level, values, n - 1);
      CompactStringItem(out, level, values, n);
      var item := Quoted(values[n - 1]);
      var q := QuotedAll(values[..n - 1]);
      QuotedAllSnoc(values, n);
      JoinCommaStep(Render(out), Render(StringItemsOut(out, false, level, values, n - 1)), q, item, n == |values|);
    }
  }

  lemma QuotedAllSnoc(values: seq<string>, n: nat)
    requires 0 < n <= |values|
    ensures QuotedAll(values[..n]) == QuotedAll(values[..n - 1]) + [Quoted(values[n - 1])]
  {
  }

  lemma JoinCommaStep(prefix: string, before: string, q: seq<string>, item: string, last: bool)
    requires before == prefix + Join(q, ",") + (if q != [] then "," else "")
    ensures before + item + (if last then "" else ",")
         == prefix + Join(q + [item], ",") + (if last then "" else ",")
  {
    JoinSnoc(q, item, ",");
  }

  /** A compact string array is "[", its quoted elements in list order separated by "," with no
      trailing comma, and "]". */
  lemma CompactStringArray(out: Doc, level: nat, values: seq<string>)
    ensures Render(StringArrayOut(out, false, level, values))
         == Render(out) + "[" + Join(QuotedAll(values), ",") + "]"
  {
    if values != [] {
      CompactStringItemsText(Cat(out, "["), level + 1, values, |values|);
      assert values[..|values|] == values;
    }
  }

  // ---------------------------------------------------------------------------------------
  // The writer: the StringBuilder and the indenter of the source, held together in one object.

  /** `text` is the StringBuilder every writer appends to and `doc` the pieces appended so far;
      `pretty` and `level` are the indenter, whose level never drops below zero. Each writer
      below leaves the level as it found it. */
  class Writer {
    var text: string
    ghost var doc: Doc
    const pretty: bool
    var level: nat

    ghost predicate Valid()
      reads this
    {
      text == Render(doc)
    }

    constructor (pretty: bool)
      ensures Valid() && doc == Empty && this.pretty == pretty && level == 0
    {
      text := [];
      doc := Empty;
      this.pretty := pretty;
      level := 0;
    }

    method Append(s: string)
      requires Valid()
      modifies this
      ensures Valid() && doc == Cat(old(doc), s) && level == old(level)
    {
      text := text + s;
      doc := Cat(doc, s);
    }

    /** Indent.down. */
    method Down()
      modifies this
      ensures text == old(text) && doc == old(doc) && level == old(level) + 1
    {
      level := level + 1;
    }

    /** Indent.up: Math.max(0, level - 1). */
    method Up()
      modifies this
      ensures text == old(text) && doc == old(doc)
      ensures old(level) > 0 ==> level == old(level) - 1
      ensures old(level) == 0 ==> level == 0
    {
      var lowered := level - 1;
      level := if lowered < 0 then 0 else lowered;
    }

    /** Indent.write. */
    method Indent()
      requires Valid()
      modifies this
      ensures Valid() && doc == IndentOut(old(doc), pretty, level) && level == old(level)
    {
      if !pretty {
        return;
      }
      Append(Repeat("  ", level));
    }

    /** Indent.newline. */
    method Newline()
      requires Valid()
      modifies this
      ensures Valid() && doc == NewlineOut(old(doc), pretty) && level == old(level)
    {
      if pretty {
        Append("\n");
      }
    }

    method WriteString(value: Option<string>)
      requires Valid()
      modifies this
      ensures Valid() && doc == StringOut(old(doc), value) && level == old(level)
    {
      Append("\"");
      ghost var quoted := doc;
      if value.Some? {
        WriteEscaped(value.value);
      } else {
        assert Escape([]) == [] by {
          assert EscapedChars([]) == [];
        }
        doc := Cat(quoted, []);
      }
      Append("\"");
    }

    /** The escaping loop of writeString: each character is appended escaped. */
    method WriteEscaped(s: string)
      requires Valid()
      modifies this
      ensures Valid() && doc == Cat(old(doc), Escape(s)) && level == old(level)
    {
      ghost var start := doc;
      for i := 0 to |s|
        invariant Valid() && text == Render(start) + Escape(s[..i]) && level == old(level)
      {
        var c := s[i];
        EscapeSnoc(s, i);
        var piece := EscapeChar(c);
        ghost var before := Escape(s[..i]);
        Append(piece);
        assert text == Render(start) + (before + piece);
      }
      assert s[..|s|] == s;
      doc := Cat(start, Escape(s));
    }

    method WriteName(name: string)
      requires Valid()
      modifies this
      ensures Valid() && doc == NameOut(old(doc), pretty, level, name) && level == old(level)
    {
      Indent();
      WriteString(Some(name));
      Append(if pretty then ": " else ":");
    }

    method WriteField(name: string, value: string, trailingComma: bool)
      requires Valid()
      modifies this
      ensures Valid() && doc == FieldOut(old(doc), pretty, level, name, value, trailingComma) && level == old(level)
    {
      WriteName(name);
      WriteString(Some(value));
      if trailingComma {
        Append(",");
      }
      Newline();
    }

    method WriteBoolField(name: string, value: bool, trailingComma: bool)
      requires Valid()
      modifies this
      ensures Valid() && doc == BoolFieldOut(old(doc), pretty, level, name, value, trailingComma) && level == old(level)
    {
      WriteName(name);
      Append(BoolToString(value));
      if trailingComma {
        Append(",");
      }
      Newline();
    }

    method WriteLastField(name: string, value: bool)
      requires Valid()
      modifies this
      ensures Valid() && doc == LastFieldOut(old(doc), pretty, level, name, value) && level == old(level)
    {
      WriteName(name);
      Append(BoolToString(value));
    }

    method WriteNullableIntegerField(name: string, value: Option<int>, trailingComma: bool)
      requires Valid()
      modifies this
      ensures Valid() && doc == NullableIntegerFieldOut(old(doc), pretty, level, name, value, trailingComma) && level == old(level)
    {
      WriteName(name);
      if value.None? {
        Append("null");
      } else {
        Append(IntToString(value.value));
      }
      if trailingComma {
        Append(",");
      }
      Newline();
    }

    method WriteNullableStringField(name: string, value: Option<string>, trailingComma: bool)
      requires Valid()
      modifies this
      ensures Valid() && doc == NullableStringFieldOut(old(doc), pretty, level, name, value, trailingComma) && level == old(level)
    {
      WriteName(name);
      if value.None? {
        Append("null");
      } else {
        WriteString(value);
      }
      if trailingComma {
        Append(",");
      }
      Newline();
    }

    method WriteStringArray(values: seq<string>)
      requires Valid()
      modifies this
      ensures Valid() && doc == Out(old(doc), pretty, level, StringArray(values)) && level == old(level)
    {
      Append("[");
      ghost var start := doc;
      if values != [] {
        Down();
        var i := 0;
        while i < |values|
          invariant 0 <= i <= |values| && level == old(level) + 1
          invariant Valid() && doc == StringItemsOut(start, pretty, level, values, i)
        {
          Newline();
          Indent();
          WriteString(Some(values[i]));
          i := i + 1;
          if i < |values| {
            Append(",");
          }
        }
        ghost var items := doc;
        assert items == StringItemsOut(Cat(old(doc), "["), pretty, old(level) + 1, values, |values|);
        Close("]");
        assert level == old(level);
        assert doc == CloseOut(items, pretty, old(level), "]");
      } else {
        Append("]");
      }
      assert doc == StringArrayOut(old(doc), pretty, old(level), values);
    }

    method WriteApiObject(api: ApiSpec)
      requires Valid()
      modifies this
      ensures Valid() && doc == ApiObjectOut(old(doc), pretty, level, api) && level == old(level)
    {
      WriteField("resourcePath", api.resourcePath, true);
      WriteBoolField("crud", api.crud, true);
      WriteBoolField("pagination", api.pagination, true);
      WriteLastField("sorting", api.sorting);
    }

    /** writeObjectStart, indent.down and indent.newline. */
    method BeginObject()
      requires Valid()
      modifies this
      ensures Valid() && doc == OpenOut(old(doc), pretty) && level == old(level) + 1
    {
      Append("{");
      Down();
      Newline();
    }

    /** indent.up, indent.newline, indent.write and the closing bracket of a non-empty array
        or object. */
    method Close(bracket: string)
      requires Valid() && level > 0
      modifies this
      ensures Valid() && doc == CloseOut(old(doc), pretty, level, bracket) && level == old(level) - 1
    {
      Up();
      Newline();
      Indent();
      Append(bracket);
    }

    /** A string-array member, then a comma and a line break. */
    method WriteStringArrayField(name: string, values: seq<string>)
      requires Valid()
      modifies this
      ensures Valid() && doc == StringArrayFieldOut(old(doc), pretty, level, name, values) && level == old(level)
    {
      WriteName(name);
      WriteStringArray(values);
      Append(",");
      Newline();
    }

    /** The members of writeFieldObject from "unique" to "encrypted". */
    method WriteConstraints(field: FieldSpec)
      requires Valid()
      modifies this
      ensures Valid() && doc == ConstraintsOut(old(doc), pretty, level, field) && level == old(level)
    {
      WriteBoolField("unique", field.unique, true);
      WriteBoolField("nullable", field.nullable, true);
      WriteNullableIntegerField("min", field.min, true);
      WriteNullableIntegerField("max", field.max, true);
      WriteNullableStringField("format", field.format, true);
      WriteBoolField("encrypted", field.encrypted, true);
    }

    method WriteFieldObject(field: FieldSpec)
      requires Valid()
      modifies this
      ensures Valid() && doc == Out(old(doc), pretty, level, FieldObject(field)) && level == old(level)
    {
      ghost var inner := level + 1;
      BeginObject();
      WriteField("name", field.name, true);
      WriteField("type", field.fieldType, true);
      ghost var o := FieldOut(FieldOut(OpenOut(old(doc), pretty), pretty, inner, "name", field.name, true), pretty, inner, "type", field.fieldType, true);
      assert doc == o && level == inner;
      WriteStringArrayField("validation", field.validation);
      o := StringArrayFieldOut(o, pretty, inner, "validation", field.validation);
      assert doc == o && level == inner;
      WriteConstraints(field);
      o := ConstraintsOut(o, pretty, inner, field);
      assert doc == o && level == inner;
      WriteStringArrayField("enumValues", field.enumValues);
      o := StringArrayFieldOut(o, pretty, inner, "enumValues", field.enumValues);
      assert doc == o && level == inner;
      WriteNullableStringField("defaultValue", field.defaultValue, true);
      WriteNullableStringField("calculatedExpression", field.calculatedExpression, false);
      o := NullableStringFieldOut(o, pretty, inner, "defaultValue", field.defaultValue, true);
      o := NullableStringFieldOut(o, pretty, inner, "calculatedExpression", field.calculatedExpression, false);
      assert doc == o && level == inner;
      Close("}");
      assert level == old(level);
      assert doc == CloseOut(o, pretty, old(level), "}");
      assert doc == FieldObjectOut(old(doc), pretty, old(level), field);
    }

    /** The body of writeRelationshipArray's loop for one relationship. */
    method WriteRelationshipObject(relationship: RelationshipSpec)
      requires Valid()
      modifies this
      ensures Valid() && doc == RelationshipObjectOut(old(doc), pretty, level, relationship) && level == old(level)
    {
      BeginObject();
      WriteField("type", relationship.relType, true);
      WriteField("target", relationship.target, true);
      WriteName("fieldName");
      WriteString(Some(relationship.fieldName));
      Close("}");
      assert level == old(level);
    }

    method WriteRelationshipArray(relationships: seq<RelationshipSpec>)
      requires Valid()
      modifies this
      ensures Valid() && doc == Out(old(doc), pretty, level, RelationshipArray(relationships)) && level == old(level)
    {
      Append("[");
      ghost var start := doc;
      if relationships != [] {
        Down();
        for i := 0 to |relationships|
          invariant level == old(level) + 1
          invariant Valid() && doc == RelationshipItemsOut(start, pretty, level, relationships, i)
        {
          if i > 0 {
            Append(",");
          }
          Newline();
          Indent();
          WriteRelationshipObject(relationships[i]);
        }
        ghost var items := doc;
        assert items == RelationshipItemsOut(Cat(old(doc), "["), pretty, old(level) + 1, relationships, |relationships|);
        Close("]");
        assert level == old(level);
        assert doc == CloseOut(items, pretty, old(level), "]");
      } else {
        Append("]");
      }
      assert doc == RelationshipArrayOut(old(doc), pretty, old(level), relationships);
    }

    /** The fields array inside writeEntityDefinition. */
    method WriteFieldArray(fields: seq<FieldSpec>)
      requires Valid()
      modifies this
      ensures Valid() && doc == Out(old(doc), pretty, level, FieldArray(fields)) && level == old(level)
    {
      Append("[");
      ghost var start := doc;
      if fields != [] {
        Down();
        for i := 0 to |fields|
          invariant level == old(level) + 1
          invariant Valid() && doc == FieldItemsOut(start, pretty, level, fields, i)
        {
          if i > 0 {
            Append(",");
          }
          Newline();
          Indent();
          WriteFieldObject(fields[i]);
        }
        ghost var items := doc;
        assert items == FieldItemsOut(Cat(old(doc), "["), pretty, old(level) + 1, fields, |fields|);
        Close("]");
        assert level == old(level);
        assert doc == CloseOut(items, pretty, old(level), "]");
      } else {
        Append("]");
      }
      assert doc == FieldArrayOut(old(doc), pretty, old(level), fields);
    }

    /** The "entity" member of writeEntityDefinition. */
    method WriteEntityMember(entity: EntitySpec)
      requires Valid()
      modifies this
      ensures Valid() && doc == EntityMemberOut(old(doc), pretty, level, entity) && level == old(level)
    {
      WriteName("entity");
      BeginObject();
      WriteField("name", entity.name, true);
      WriteField("table", entity.table, true);
      WriteField("idType", entity.idType, true);
      WriteName("fields");
      WriteFieldArray(entity.fields);
      Close("}");
      assert level == old(level);
      Append(",");
      Newline();
    }

    /** The "api" member of writeEntityDefinition. */
    method WriteApiMember(api: ApiSpec)
      requires Valid()
      modifies this
      ensures Valid() && doc == ApiMemberOut(old(doc), pretty, level, api) && level == old(level)
    {
      WriteName("api");
      BeginObject();
      WriteApiObject(api);
      Close("}");
      assert level == old(level);
      Append(",");
      Newline();
    }

    method WriteEntityDefinition(definition: EntityDefinition)
      requires Valid()
      modifies this
      ensures Valid() && doc == Out(old(doc), pretty, level, Definition(definition)) && level == old(level)
    {
      ghost var inner := level + 1;
      BeginObject();
      ghost var o := OpenOut(old(doc), pretty);
      assert doc == o && level == inner;
      WriteEntityMember(definition.entity);
      o := EntityMemberOut(o, pretty, inner, definition.entity);
      assert doc == o && level == inner;
      WriteApiMember(definition.api);
      o := ApiMemberOut(o, pretty, inner, definition.api);
      assert doc == o && level == inner;
      WriteName("relationships");
      WriteRelationshipArray(definition.relationships);
      o := Out(NameOut(o, pretty, inner, "relationships"), pretty, inner, RelationshipArray(definition.relationships));
      assert doc == o && level == inner;
      Close("}");
      assert level == old(level);
      assert doc == EntityDefinitionOut(old(doc), pretty, old(level), definition);
    }

    /** The entities array inside writeApiSpecification. */
    method WriteEntityArray(entities: seq<EntityDefinition>)
      requires Valid()
      modifies this
      ensures Valid() && doc == Out(old(doc), pretty, level, DefinitionArray(entities)) && level == old(level)
    {
      Append("[");
      ghost var start := doc;
      if entities != [] {
        Down();
        for i := 0 to |entities|
          invariant level == old(level) + 1
          invariant Valid() && doc == EntityItemsOut(start, pretty, level, entities, i)
        {
          if i > 0 {
            Append(",");
          }
          Newline();
          Indent();
          WriteEntityDefinition(entities[i]);
        }
        ghost var items := doc;
        assert items == EntityItemsOut(Cat(old(doc), "["), pretty, old(level) + 1, entities, |entities|);
        Close("]");
        assert level == old(level);
        assert doc == CloseOut(items, pretty, old(level), "]");
      } else {
        Append("]");
      }
      assert doc == EntityArrayOut(old(doc), pretty, old(level), entities);
    }
  }

  /** writeApiSpecification: the whole document. */
  method WriteApiSpecification(spec: ApiSpecification, pretty: bool) returns (json: string)
    ensures json == DocumentText(spec, pretty)
  {
    var w := new Writer(pretty);
    w.BeginObject();
    w.WriteField("projectName", spec.projectName, true);
    w.WriteField("basePackage", spec.basePackage, true);

    w.WriteName("entities");
    w.WriteEntityArray(spec.entities);
    w.Append(",");
    w.Newline();

    w.WriteName("suggestions");
    w.WriteStringArray(spec.suggestions);
    w.Newline();

    w.Up();
    w.Newline();
    w.Append("}");
    if pretty {
      w.Append("\n");
    }
    return w.text;
  }
}
