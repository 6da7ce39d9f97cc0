/** The natural-language generator: a request becomes entity definitions (names, tables, resource
    paths, fields with validation tokens, relationships and API flags), a project name and, when
    the request names no entity, entity-name suggestions. */
module SpecGenerator {
  import opened Wrappers
  import opened Text
  import opened Domain
  import opened NameTransforms
  import opened Pluralizer
  import opened TypeInference
  import RequestParsing
  import EntityNameSuggester

  const DefaultBasePackage: string := "com.example.generated"
  const DefaultIdType: string := "Long"
  const DefaultEntityName: string := "Item"

  /** A relationship as the request parser reports it. How relationships are read from a segment
      is an input of the model: every operation that needs it takes an extractor. */
  datatype ParsedRelationship = ParsedRelationship(relType: string, target: Option<string>, fieldName: Option<string>)

  // ---------------------------------------------------------------------------------------------
  // The first-occurrence loops: an item is skipped when its key is blank or already in the
  // used-names set, and kept (and its key added) otherwise.

  /** The keys of the items kept so far: the used-names set. */
  function Keys<T>(xs: seq<T>, key: T -> string): set<string> {
    set i | 0 <= i < |xs| :: key(xs[i])
  }

  /** The items such a loop keeps, in order. */
  function KeepFirst<T>(xs: seq<T>, key: T -> string): seq<T> {
    if xs == [] then []
    else
      var prev := KeepFirst(xs[..|xs| - 1], key);
      var k := key(xs[|xs| - 1]);
      if IsBlank(k) || k in Keys(prev, key) then prev else prev + [xs[|xs| - 1]]
  }

  function MapSeq<T, U>(xs: seq<T>, f: T -> U): (r: seq<U>)
    ensures |r| == |xs| && forall i :: 0 <= i < |xs| ==> r[i] == f(xs[i])
  {
    if xs == [] then [] else MapSeq(xs[..|xs| - 1], f) + [f(xs[|xs| - 1])]
  }

  predicate DistinctKeys<T>(ys: seq<T>, key: T -> string) {
    forall i, j :: 0 <= i < j < |ys| ==> key(ys[i]) != key(ys[j])
  }

  /** The item at index j is the first one with its key. */
  predicate FirstWithKey<T>(xs: seq<T>, key: T -> string, j: nat) {
    j < |xs| && forall m :: 0 <= m < j ==> key(xs[m]) != key(xs[j])
  }

  /** One more iteration of the loop. */
  lemma KeepFirstStep<T>(xs: seq<T>, i: nat, key: T -> string)
    requires i < |xs|
    ensures var prev := KeepFirst(xs[..i], key);
            var k := key(xs[i]);
            KeepFirst(xs[..i + 1], key) == if IsBlank(k) || k in Keys(prev, key) then prev else prev + [xs[i]]
  {
    assert xs[..i + 1][..i] == xs[..i];
  }

  lemma KeysAppend<T>(ys: seq<T>, y: T, key: T -> string)
    ensures Keys(ys + [y], key) == Keys(ys, key) + {key(y)}
  {
    var zs := ys + [y];
    forall k | k in Keys(zs, key) ensures k in Keys(ys, key) + {key(y)} {
      var i :| 0 <= i < |zs| && key(zs[i]) == k;
      if i < |ys| {
        assert zs[i] == ys[i];
      }
    }
    forall k | k in Keys(ys, key) ensures k in Keys(zs, key) {
      var i :| 0 <= i < |ys| && key(ys[i]) == k;
      assert zs[i] == ys[i];
    }
    assert zs[|ys|] == y;
  }

  lemma MapSeqAppend<T, U>(ys: seq<T>, y: T, f: T -> U)
    ensures MapSeq(ys + [y], f) == MapSeq(ys, f) + [f(y)]
  {
    assert (ys + [y])[..|ys|] == ys;
  }

  /** The kept items have non-blank, pairwise distinct keys, and every non-blank key of the input
      is among them. */
  lemma {:induction false} KeepFirstIsSet<T>(xs: seq<T>, key: T -> string)
    ensures var r := KeepFirst(xs, key);
            && |r| <= |xs|
            && DistinctKeys(r, key)
            && (forall i :: 0 <= i < |r| ==> !IsBlank(key(r[i])))
            && (forall i :: 0 <= i < |xs| && !IsBlank(key(xs[i])) ==> key(xs[i]) in Keys(r, key))
  {
    if xs != [] {
      var init := xs[..|xs| - 1];
      var x := xs[|xs| - 1];
      KeepFirstIsSet(init, key);
      var prev := KeepFirst(init, key);
      var r := KeepFirst(xs, key);
      if !(IsBlank(key(x)) || key(x) in Keys(prev, key)) {
        KeysAppend(prev, x, key);
        forall i | 0 <= i < |prev| ensures key(r[i]) != key(x) {
          assert key(prev[i]) in Keys(prev, key);
        }
      }
      forall i | 0 <= i < |xs| && !IsBlank(key(xs[i])) ensures key(xs[i]) in Keys(r, key) {
        if i < |xs| - 1 {
          assert xs[i] == init[i];
          if r != prev {
            KeysAppend(prev, x, key);
          }
        } else if r != prev {
          KeysAppend(prev, x, key);
        }
      }
    }
  }

  /** Each kept item is the first item of the input with its key: a later item with the same key
      is skipped, not merged. */
  lemma {:induction false} KeepFirstIsFirst<T>(xs: seq<T>, key: T -> string)
    ensures forall i :: 0 <= i < |KeepFirst(xs, key)| ==>
              exists j: nat :: FirstWithKey(xs, key, j) && KeepFirst(xs, key)[i] == xs[j]
  {
    if xs != [] {
      var init := xs[..|xs| - 1];
      var x := xs[|xs| - 1];
      KeepFirstIsFirst(init, key);
      var prev := KeepFirst(init, key);
      var r := KeepFirst(xs, key);
      forall i | 0 <= i < |r| ensures exists j: nat :: FirstWithKey(xs, key, j) && r[i] == xs[j] {
        if i < |prev| {
          assert r[i] == prev[i];
          assert exists j: nat :: FirstWithKey(init, key, j) && prev[i] == init[j];
          var j: nat :| FirstWithKey(init, key, j) && prev[i] == init[j];
          assert xs[j] == init[j];
          assert forall m :: 0 <= m < j ==> xs[m] == init[m];
          assert FirstWithKey(xs, key, j) && r[i] == xs[j];
        } else {
          var j: nat := |xs| - 1;
          assert r == prev + [x] && r[i] == xs[j];
          KeepFirstIsSet(init, key);
          forall m | 0 <= m < j ensures key(xs[m]) != key(xs[j]) {
            assert xs[m] == init[m];
          }
          assert FirstWithKey(xs, key, j) && r[i] == xs[j];
        }
      }
    } else {
      assert KeepFirst(xs, key) == [];
    }
  }

  /** What the loop builds from each kept item is built from the first item with its key. */
  lemma KeptMapIsFirst<T, U>(xs: seq<T>, key: T -> string, make: T -> U)
    ensures var ys := MapSeq(KeepFirst(xs, key), make);
            forall i :: 0 <= i < |ys| ==> exists j: nat :: FirstWithKey(xs, key, j) && ys[i] == make(xs[j])
  {
    var kept := KeepFirst(xs, key);
    var ys := MapSeq(kept, make);
    KeepFirstIsFirst(xs, key);
    forall i | 0 <= i < |ys| ensures exists j: nat :: FirstWithKey(xs, key, j) && ys[i] == make(xs[j]) {
      var j: nat :| FirstWithKey(xs, key, j) && kept[i] == xs[j];
    }
  }

  /** When what the loop builds carries its key as its name, the names are non-blank and
      distinct, and every non-blank key of the input is among them. */
  lemma KeptMapNames<T, U>(xs: seq<T>, key: T -> string, make: T -> U, name: U -> string)
    requires forall x :: name(make(x)) == key(x)
    ensures var ys := MapSeq(KeepFirst(xs, key), make);
            && (forall i, j :: 0 <= i < j < |ys| ==> name(ys[i]) != name(ys[j]))
            && (forall i :: 0 <= i < |ys| ==> !IsBlank(name(ys[i])))
            && (forall j :: 0 <= j < |xs| && !IsBlank(key(xs[j])) ==>
                  exists i :: 0 <= i < |ys| && name(ys[i]) == key(xs[j]))
  {
    var kept := KeepFirst(xs, key);
    var ys := MapSeq(kept, make);
    KeepFirstIsSet(xs, key);
    assert forall i :: 0 <= i < |ys| ==> name(ys[i]) == key(kept[i]);
    forall j | 0 <= j < |xs| && !IsBlank(key(xs[j])) ensures exists i :: 0 <= i < |ys| && name(ys[i]) == key(xs[j]) {
      var i :| 0 <= i < |kept| && key(kept[i]) == key(xs[j]);
      assert name(ys[i]) == key(kept[i]);
    }
  }

  /** The loop only appends: what it keeps from a prefix of the input opens what it keeps from the
      whole input. */
  lemma {:induction false} KeepFirstPrefix<T>(xs: seq<T>, k: nat, key: T -> string)
    requires k <= |xs|
    ensures KeepFirst(xs[..k], key) <= KeepFirst(xs, key)
    decreases |xs| - k
  {
    if k < |xs| {
      KeepFirstPrefix(xs, k + 1, key);
      KeepFirstStep(xs, k, key);
    } else {
      assert xs[..k] == xs;
    }
  }

  // ---------------------------------------------------------------------------------------------
  // Names of tables, resources and projects

  /** defaultTableName: the plural of the snake form. */
  function DefaultTableName(entityName: string): string {
    Pluralize(Some(SnakeCase(Some(entityName))))
  }

  /** defaultResourcePath: "/api/" and the plural of the kebab form. */
  function DefaultResourcePath(entityName: string): string {
    "/api/" + Pluralize(Some(KebabCase(Some(entityName))))
  }

  /** defaultProjectName(String): the plural of the kebab form and "-api". */
  function ProjectNameOf(entityName: string): string {
    Pluralize(Some(KebabCase(Some(entityName)))) + "-api"
  }

  /** defaultProjectName(List): named after the first entity, or after "Item" when there is
      none. */
  function DefaultProjectName(definitions: seq<EntityDefinition>): string {
    if definitions == [] then ProjectNameOf(DefaultEntityName)
    else Pluralize(Some(KebabCase(Some(definitions[0].entity.name)))) + "-api"
  }

  /** The project name ends in "-api" and, past the first entity, is the resource path of that
      entity without its "/api/" prefix. */
  lemma ProjectNameOfFirstEntity(definitions: seq<EntityDefinition>)
    ensures var name := if definitions == [] then DefaultEntityName else definitions[0].entity.name;
            var p := DefaultProjectName(definitions);
            && EndsWith(p, "-api")
            && "/api/" + p[..|p| - 4] == DefaultResourcePath(name)
  {
  }

  // ---------------------------------------------------------------------------------------------
  // Validation tokens

  predicate IsNumericType(fieldType: string) {
    fieldType == "Integer" || fieldType == "Long" || fieldType == "BigDecimal" || fieldType == "Double"
  }

  /** "email".equalsIgnoreCase(format); a null format never matches. */
  predicate IsEmailFormat(format: Option<string>) {
    format.Some? && EqualsIgnoreCase("email", format.value)
  }

  predicate WantsEmail(fieldName: string, format: Option<string>) {
    IsEmailFormat(format) || Contains(Lower(fieldName), "email")
  }

  /** "Size:min:max" with 0 and 255 standing in for a missing bound. */
  function SizeToken(min: Option<int>, max: Option<int>): string {
    "Size:" + IntToString(min.GetOr(0)) + ":" + IntToString(max.GetOr(255))
  }

  function MinToken(n: int): string { "Min:" + IntToString(n) }
  function MaxToken(n: int): string { "Max:" + IntToString(n) }

  /** buildValidationTokens. */
  function ValidationTokens(fieldName: string, fieldType: string, nullable: bool,
                            min: Option<int>, max: Option<int>, format: Option<string>): seq<string> {
    if nullable then []
    else if fieldType == "String" then
      ["NotBlank"]
      + (if WantsEmail(fieldName, format) then ["Email"] else [])
      + (if min.Some? || max.Some? then [SizeToken(min, max)]
         else if LooksLikeNameField(Some(fieldName)) then ["Size:2:50"]
         else [])
    else if IsNumericType(fieldType) then
      (if min.Some? then [MinToken(min.value)] else []) + (if max.Some? then [MaxToken(max.value)] else [])
    else []
  }

  /** The token rules: none for a nullable field; for a String, "NotBlank" first, "Email" exactly
      when the format or the name asks for it, and a final size token from the bounds or for a
      name-like field; for a numeric type, one "Min:" and one "Max:" token per bound given; none
      for any other type. */
  lemma ValidationRules(fieldName: string, fieldType: string, nullable: bool,
                        min: Option<int>, max: Option<int>, format: Option<string>)
    ensures var r := ValidationTokens(fieldName, fieldType, nullable, min, max, format);
            && (nullable ==> r == [])
            && (!nullable && fieldType == "String" ==>
                  && 1 <= |r| <= 3 && r[0] == "NotBlank"
                  && ("Email" in r <==> WantsEmail(fieldName, format))
                  && (min.Some? || max.Some? ==> r[|r| - 1] == SizeToken(min, max))
                  && (min.None? && max.None? ==>
                        ("Size:2:50" in r <==> LooksLikeNameField(Some(fieldName)))))
            && (!nullable && IsNumericType(fieldType) ==>
                  && (min.Some? <==> exists n :: MinToken(n) in r)
                  && (max.Some? <==> exists n :: MaxToken(n) in r)
                  && (min.Some? ==> MinToken(min.value) in r)
                  && (max.Some? ==> MaxToken(max.value) in r)
                  && |r| <= 2)
            && (!nullable && fieldType != "String" && !IsNumericType(fieldType) ==> r == [])
  {
    var r := ValidationTokens(fieldName, fieldType, nullable, min, max, format);
    if !nullable && fieldType == "String" {
      assert "Email" != "NotBlank" && "Size:2:50" != "Email";
      forall a, b ensures "Size:" + a + b != "Email" {
        assert ("Size:" + a + b)[0] == 'S';
      }
    }
    if !nullable && IsNumericType(fieldType) {
      forall n, m ensures MinToken(n) != MaxToken(m) {
        assert MinToken(n)[1] != MaxToken(m)[1];
      }
      if min.Some? {
        assert MinToken(min.value) == r[0];
      }
      if max.Some? {
        assert MaxToken(max.value) == r[|r| - 1];
      }
    }
  }

  /** buildValidationTokens, appending to a list. */
  method BuildValidationTokens(fieldName: string, fieldType: string, nullable: bool,
                               min: Option<int>, max: Option<int>, format: Option<string>)
    returns (validation: seq<string>)
    ensures validation == ValidationTokens(fieldName, fieldType, nullable, min, max, format)
  {
    if nullable {
      return [];
    }
    validation := [];
    if fieldType == "String" {
      validation := validation + ["NotBlank"];
      if IsEmailFormat(format) || Contains(Lower(fieldName), "email") {
        validation := validation + ["Email"];
      }
      assert validation == ["NotBlank"] + (if WantsEmail(fieldName, format) then ["Email"] else []);
      if min.Some? || max.Some? {
        var low := if min.None? then 0 else min.value;
        var high := if max.None? then 255 else max.value;
        assert "Size:" + IntToString(low) + ":" + IntToString(high) == SizeToken(min, max);
        validation := validation + ["Size:" + IntToString(low) + ":" + IntToString(high)];
      } else if LooksLikeNameField(Some(fieldName)) {
        validation := validation + ["Size:2:50"];
      }
    } else if fieldType == "Integer" || fieldType == "Long" || fieldType == "BigDecimal" || fieldType == "Double" {
      if min.Some? {
        validation := validation + ["Min:" + IntToString(min.value)];
      }
      if max.Some? {
        validation := validation + ["Max:" + IntToString(max.value)];
      }
    }
  }

  // ---------------------------------------------------------------------------------------------
  // Fields

  /** The field name of a parsed field: its camel form. */
  function FieldKey(parsed: RequestParsing.ParsedField): string {
    CamelCase(Some(parsed.name))
  }

  /** The field built from a parsed field; the attributes the parser never sets are absent. */
  function MakeField(parsed: RequestParsing.ParsedField): FieldSpec {
    var camel := FieldKey(parsed);
    var fieldType := NormalizeType(parsed.typeHint, Some(camel));
    FieldSpec(camel, fieldType, ValidationTokens(camel, fieldType, parsed.nullable, None, None, None),
              parsed.unique, parsed.nullable, None, None, None, false, [], None, None)
  }

  /** buildFields, as a value. */
  function FieldsOf(segment: string): seq<FieldSpec> {
    MapSeq(KeepFirst(RequestParsing.Fields(Some(segment)), FieldKey), MakeField)
  }

  function FieldName(f: FieldSpec): string { f.name }

  /** Field names are non-blank, distinct camel forms, and every parsed field whose name has a
      non-blank camel form is represented. */
  lemma FieldNamesUnique(parsed: seq<RequestParsing.ParsedField>)
    ensures var fs := MapSeq(KeepFirst(parsed, FieldKey), MakeField);
            && (forall i, j :: 0 <= i < j < |fs| ==> fs[i].name != fs[j].name)
            && (forall i :: 0 <= i < |fs| ==> !IsBlank(fs[i].name))
            && (forall j :: 0 <= j < |parsed| && !IsBlank(FieldKey(parsed[j])) ==>
                  exists i :: 0 <= i < |fs| && fs[i].name == FieldKey(parsed[j]))
  {
    KeptMapNames(parsed, FieldKey, MakeField, FieldName);
  }

  /** Each field is built from the first parsed field with its camel name: a later field with the
      same name is dropped, not merged. */
  lemma FieldsFirstWins(parsed: seq<RequestParsing.ParsedField>)
    ensures var fs := MapSeq(KeepFirst(parsed, FieldKey), MakeField);
            forall i :: 0 <= i < |fs| ==>
              exists j: nat :: FirstWithKey(parsed, FieldKey, j) && fs[i] == MakeField(parsed[j])
  {
    KeptMapIsFirst(parsed, FieldKey, MakeField);
  }

  /** buildFields. */
  method BuildFields(segment: string) returns (fields: seq<FieldSpec>)
    ensures fields == FieldsOf(segment)
  {
    var parsedFields := RequestParsing.ExtractFields(Some(segment));
    fields := [];
    var usedNames: set<string> := {};
    for i := 0 to |parsedFields|
      invariant fields == MapSeq(KeepFirst(parsedFields[..i], FieldKey), MakeField)
      invariant usedNames == Keys(KeepFirst(parsedFields[..i], FieldKey), FieldKey)
    {
      var parsed := parsedFields[i];
      var camel := CamelCase(Some(parsed.name));
      KeepFirstStep(parsedFields, i, FieldKey);
      if !IsBlank(camel) && camel !in usedNames {
        KeysAppend(KeepFirst(parsedFields[..i], FieldKey), parsed, FieldKey);
        MapSeqAppend(KeepFirst(parsedFields[..i], FieldKey), parsed, MakeField);
        usedNames := usedNames + {camel};
        var fieldType := NormalizeType(parsed.typeHint, Some(camel));
        var validation := BuildValidationTokens(camel, fieldType, parsed.nullable, None, None, None);
        fields := fields + [FieldSpec(camel, fieldType, validation, parsed.unique, parsed.nullable,
                                      None, None, None, false, [], None, None)];
      }
    }
    assert parsedFields[..|parsedFields|] == parsedFields;
  }

  // ---------------------------------------------------------------------------------------------
  // Relationships and API flags

  /** One relationship: the type kept, the target Pascal-cased and the field name camel-cased. */
  function RelationshipOf(relation: ParsedRelationship): RelationshipSpec {
    RelationshipSpec(relation.relType, PascalCase(relation.target), CamelCase(relation.fieldName))
  }

  /** Relationship targets and field names carry no '-', '_' or white space. */
  lemma RelationshipNamesClean(parsed: seq<ParsedRelationship>)
    ensures var rs := MapSeq(parsed, RelationshipOf);
            |rs| == |parsed|
            && forall i :: 0 <= i < |rs| ==>
                 && rs[i].relType == parsed[i].relType
                 && (forall j :: 0 <= j < |rs[i].target| ==> NotSeparator(rs[i].target[j]))
                 && (forall j :: 0 <= j < |rs[i].fieldName| ==> NotSeparator(rs[i].fieldName[j]))
  {
    var rs := MapSeq(parsed, RelationshipOf);
    forall i | 0 <= i < |rs|
      ensures (forall j :: 0 <= j < |rs[i].target| ==> NotSeparator(rs[i].target[j]))
      ensures (forall j :: 0 <= j < |rs[i].fieldName| ==> NotSeparator(rs[i].fieldName[j]))
    {
      PascalCaseHasNoSeparator(parsed[i].target);
      PascalCaseHasNoSeparator(parsed[i].fieldName);
    }
  }

  /** buildRelationships, over what the extractor reports for the segment. */
  method BuildRelationships(parsed: seq<ParsedRelationship>) returns (relationships: seq<RelationshipSpec>)
    ensures relationships == MapSeq(parsed, RelationshipOf)
  {
    relationships := [];
    for i := 0 to |parsed|
      invariant relationships == MapSeq(parsed[..i], RelationshipOf)
    {
      var relation := parsed[i];
      var target := ToPascalCase(relation.target);
      var fieldName := CamelCase(relation.fieldName);
      assert parsed[..i + 1][..i] == parsed[..i];
      relationships := relationships + [RelationshipSpec(relation.relType, target, fieldName)];
    }
    assert parsed[..|parsed|] == parsed;
  }

  /** buildApi: the resource path of the entity and each flag the negation of its disable check
      on the lower-cased segment. */
  function BuildApi(segment: string, entityName: string): ApiSpec {
    var lower := Lower(segment);
    ApiSpec(DefaultResourcePath(entityName),
            !RequestParsing.ContainsDisableCrud(lower),
            !RequestParsing.ContainsDisablePagination(lower),
            !RequestParsing.ContainsDisableSorting(lower))
  }

  // ---------------------------------------------------------------------------------------------
  // Entities

  /** The entity name of a segment: the Pascal form of the name extractEntityName finds in it, or
      of "Item" when it finds none. */
  function EntityKey(segment: string): string {
    PascalCase(Some(RequestParsing.EntityName(Some(segment)).GetOr(DefaultEntityName)))
  }

  /** The definition built for a kept segment. */
  function MakeEntity(extract: string -> seq<ParsedRelationship>, segment: string): EntityDefinition {
    var name := EntityKey(segment);
    EntityDefinition(EntitySpec(name, DefaultTableName(name), DefaultIdType, FieldsOf(segment)),
                     BuildApi(segment, name),
                     MapSeq(extract(segment), RelationshipOf))
  }

  function EntityMaker(extract: string -> seq<ParsedRelationship>): string -> EntityDefinition {
    segment => MakeEntity(extract, segment)
  }

  function EntityNameOf(d: EntityDefinition): string { d.entity.name }

  /** buildEntityDefinitions, as a value: nothing for a blank request, otherwise one definition
      for the first segment of each non-blank entity name. */
  function EntitiesOf(extract: string -> seq<ParsedRelationship>, request: string): seq<EntityDefinition> {
    MapSeq(KeepFirst(RequestParsing.Segments(Some(request)), EntityKey), EntityMaker(extract))
  }

  /** A segment in which no entity name is found describes an entity named "Item". */
  lemma UnnamedSegmentIsItem(segment: string)
    requires RequestParsing.EntityName(Some(segment)).None?
    ensures EntityKey(segment) == DefaultEntityName
  {
    ItemIsPascal(DefaultEntityName);
  }

  lemma ItemIsPascal(w: string)
    requires w == "Item"
    ensures PascalCase(Some(w)) == w
  {
    EntityNameSuggester.PascalOfLowerWord(w);
    assert w[1..] == "tem";
  }

  /** Entity names are non-blank and distinct, every segment whose entity name is non-blank is
      represented, and each definition is built from the first segment with its name: a later
      segment with the same name is skipped, not merged. */
  lemma EntityNamesUnique(extract: string -> seq<ParsedRelationship>, segments: seq<string>)
    ensures var ds := MapSeq(KeepFirst(segments, EntityKey), EntityMaker(extract));
            && (forall i, j :: 0 <= i < j < |ds| ==> ds[i].entity.name != ds[j].entity.name)
            && (forall i :: 0 <= i < |ds| ==> !IsBlank(ds[i].entity.name))
            && (forall j :: 0 <= j < |segments| && !IsBlank(EntityKey(segments[j])) ==>
                  exists i :: 0 <= i < |ds| && ds[i].entity.name == EntityKey(segments[j]))
            && (forall i :: 0 <= i < |ds| ==>
                  exists j: nat :: FirstWithKey(segments, EntityKey, j) && ds[i] == MakeEntity(extract, segments[j]))
  {
    KeptMapNames(segments, EntityKey, EntityMaker(extract), EntityNameOf);
    KeptMapIsFirst(segments, EntityKey, EntityMaker(extract));
  }

  /** The definition of one segment, as the loop body of buildEntityDefinitions builds it. */
  method BuildEntity(extract: string -> seq<ParsedRelationship>, segment: string, entityName: string)
    returns (definition: EntityDefinition)
    requires entityName == EntityKey(segment)
    ensures definition == MakeEntity(extract, segment)
  {
    var fields := BuildFields(segment);
    var relationships := BuildRelationships(extract(segment));
    var entity := EntitySpec(entityName, DefaultTableName(entityName), DefaultIdType, fields);
    var api := BuildApi(segment, entityName);
    definition := EntityDefinition(entity, api, relationships);
  }

  /** buildEntityDefinitions. */
  method BuildEntityDefinitions(extract: string -> seq<ParsedRelationship>, request: string)
    returns (definitions: seq<EntityDefinition>)
    ensures definitions == EntitiesOf(extract, request)
  {
    if IsBlank(request) {
      assert RequestParsing.Segments(Some(request)) == [];
      return [];
    }
    var segments := RequestParsing.Segments(Some(request));
    definitions := [];
    var usedNames: set<string> := {};
    for i := 0 to |segments|
      invariant definitions == MapSeq(KeepFirst(segments[..i], EntityKey), EntityMaker(extract))
      invariant usedNames == Keys(KeepFirst(segments[..i], EntityKey), EntityKey)
    {
      var segment := segments[i];
      var rawName := RequestParsing.ExtractEntityName(Some(segment));
      var entityName := ToPascalCase(if rawName.None? then Some(DefaultEntityName) else rawName);
      KeepFirstStep(segments, i, EntityKey);
      if !IsBlank(entityName) && entityName !in usedNames {
        KeysAppend(KeepFirst(segments[..i], EntityKey), segment, EntityKey);
        MapSeqAppend(KeepFirst(segments[..i], EntityKey), segment, EntityMaker(extract));
        usedNames := usedNames + {entityName};
        var definition := BuildEntity(extract, segment, entityName);
        definitions := definitions + [definition];
      }
    }
    assert segments[..|segments|] == segments;
  }

  // ---------------------------------------------------------------------------------------------
  // generate

  /** defaultEntityDefinition: the entity with no fields, every endpoint family on and no
      relationships. */
  function DefaultEntityDefinition(entityName: string): EntityDefinition {
    EntityDefinition(EntitySpec(entityName, DefaultTableName(entityName), DefaultIdType, []),
                     ApiSpec(DefaultResourcePath(entityName), true, true, true), [])
  }

  /** hasExplicitEntityName: the whole request names an entity. */
  predicate HasExplicitEntityName(request: string) {
    !IsBlank(request) && RequestParsing.EntityName(Some(request)).Some?
  }

  /** What generate returns once the definitions are built. */
  function Assemble(request: string, built: seq<EntityDefinition>): ApiSpecification {
    var definitions := if built == [] then [DefaultEntityDefinition(DefaultEntityName)] else built;
    var projectName := DefaultProjectName(definitions);
    var suggestions := if HasExplicitEntityName(request) then []
                       else EntityNameSuggester.SuggestOf(Some(request), Some(projectName));
    ApiSpecification(projectName, DefaultBasePackage, definitions, suggestions)
  }

  /** generate, as a value: the request is trimmed (null counts as empty). */
  function GenerateOf(extract: string -> seq<ParsedRelationship>, userRequest: Option<string>): ApiSpecification {
    var request := Trim(userRequest.GetOr(""));
    Assemble(request, EntitiesOf(extract, request))
  }

  method Generate(extract: string -> seq<ParsedRelationship>, userRequest: Option<string>)
    returns (spec: ApiSpecification)
    ensures spec == GenerateOf(extract, userRequest)
  {
    var request := Trim(if userRequest.None? then "" else userRequest.value);
    var definitions := BuildEntityDefinitions(extract, request);
    if definitions == [] {
      definitions := [DefaultEntityDefinition(DefaultEntityName)];
    }
    var projectName := DefaultProjectName(definitions);
    var suggestions: seq<string> := [];
    if !HasExplicitEntityName(request) {
      suggestions := EntityNameSuggester.Suggest(Some(request), Some(projectName));
    }
    spec := ApiSpecification(projectName, DefaultBasePackage, definitions, suggestions);
  }

  /** The naming rules every definition follows. */
  predicate NamedByRule(d: EntityDefinition) {
    && !IsBlank(d.entity.name)
    && d.entity.idType == DefaultIdType
    && d.entity.table == DefaultTableName(d.entity.name)
    && d.api.resourcePath == DefaultResourcePath(d.entity.name)
  }

  predicate UniqueEntityNames(ds: seq<EntityDefinition>) {
    forall i, j :: 0 <= i < j < |ds| ==> ds[i].entity.name != ds[j].entity.name
  }

  /** Every built definition follows the naming rules, and their names are distinct. */
  lemma BuiltEntitiesNamedByRule(extract: string -> seq<ParsedRelationship>, segments: seq<string>)
    ensures var ds := MapSeq(KeepFirst(segments, EntityKey), EntityMaker(extract));
            UniqueEntityNames(ds) && forall i :: 0 <= i < |ds| ==> NamedByRule(ds[i])
  {
    EntityNamesUnique(extract, segments);
  }

  /** The specification of any request: at least one entity, all named by the rules with distinct
      names; the project is named after the first entity; the base package is always
      "com.example.generated"; and there are suggestions exactly when the request names no entity
      (then one to three of them). */
  lemma GeneratedShape(extract: string -> seq<ParsedRelationship>, userRequest: Option<string>)
    ensures var request := Trim(userRequest.GetOr(""));
            var r := GenerateOf(extract, userRequest);
            && r.basePackage == DefaultBasePackage
            && |r.entities| >= 1
            && UniqueEntityNames(r.entities)
            && (forall i :: 0 <= i < |r.entities| ==> NamedByRule(r.entities[i]))
            && r.projectName == ProjectNameOf(r.entities[0].entity.name)
            && (HasExplicitEntityName(request) ==> r.suggestions == [])
            && (!HasExplicitEntityName(request) ==>
                  r.suggestions == EntityNameSuggester.SuggestOf(Some(request), Some(r.projectName))
                  && 1 <= |r.suggestions| <= 3)
  {
    var request := Trim(userRequest.GetOr(""));
    BuiltEntitiesNamedByRule(extract, RequestParsing.Segments(Some(request)));
    AssembleShape(request, EntitiesOf(extract, request));
  }

  lemma AssembleShape(request: string, built: seq<EntityDefinition>)
    requires UniqueEntityNames(built) && forall i :: 0 <= i < |built| ==> NamedByRule(built[i])
    ensures var r := Assemble(request, built);
            && r.basePackage == DefaultBasePackage
            && |r.entities| >= 1
            && UniqueEntityNames(r.entities)
            && (forall i :: 0 <= i < |r.entities| ==> NamedByRule(r.entities[i]))
            && r.projectName == ProjectNameOf(r.entities[0].entity.name)
            && (HasExplicitEntityName(request) ==> r.suggestions == [])
            && (!HasExplicitEntityName(request) ==>
                  r.suggestions == EntityNameSuggester.SuggestOf(Some(request), Some(r.projectName))
                  && 1 <= |r.suggestions| <= 3)
  {
    AssembleEntities(request, built);
    AssembleSuggestions(request, built);
  }

  /** The definitions generate returns: the built ones, or the default one when none was built. */
  lemma AssembleEntities(request: string, built: seq<EntityDefinition>)
    requires UniqueEntityNames(built) && forall i :: 0 <= i < |built| ==> NamedByRule(built[i])
    ensures var r := Assemble(request, built);
            && r.basePackage == DefaultBasePackage
            && |r.entities| >= 1
            && UniqueEntityNames(r.entities)
            && (forall i :: 0 <= i < |r.entities| ==> NamedByRule(r.entities[i]))
            && r.projectName == ProjectNameOf(r.entities[0].entity.name)
  {
    if built == [] {
      assert !IsWhitespace(DefaultEntityName[0]);
    }
  }

  /** The suggestions generate returns: none after an explicit entity name, else one to three. */
  lemma AssembleSuggestions(request: string, built: seq<EntityDefinition>)
    ensures var r := Assemble(request, built);
            && (HasExplicitEntityName(request) ==> r.suggestions == [])
            && (!HasExplicitEntityName(request) ==>
                  r.suggestions == EntityNameSuggester.SuggestOf(Some(request), Some(r.projectName))
                  && 1 <= |r.suggestions| <= 3)
  {
    var r := Assemble(request, built);
    if !HasExplicitEntityName(request) {
      EntityNameSuggester.SuggestShape(EntityNameSuggester.Candidates(Some(request), Some(r.projectName)));
    }
  }

  /** What a definition takes from the segment it is built from: its name, its fields and its
      relationships, and each endpoint family is switched off exactly when the lower-cased segment
      carries one of its disable phrases. */
  predicate BuiltFrom(extract: string -> seq<ParsedRelationship>, d: EntityDefinition, segment: string) {
    && d.entity.name == EntityKey(segment)
    && d.entity.fields == FieldsOf(segment)
    && d.relationships == MapSeq(extract(segment), RelationshipOf)
    && (d.api.crud <==> !RequestParsing.ContainsDisableCrud(Lower(segment)))
    && (d.api.pagination <==> !RequestParsing.ContainsDisablePagination(Lower(segment)))
    && (d.api.sorting <==> !RequestParsing.ContainsDisableSorting(Lower(segment)))
  }

  /** Each definition built from a list of segments comes from the first segment with its entity
      name. */
  lemma BuiltFromSegments(extract: string -> seq<ParsedRelationship>, segments: seq<string>)
    ensures var ds := MapSeq(KeepFirst(segments, EntityKey), EntityMaker(extract));
            forall i :: 0 <= i < |ds| ==>
              exists j: nat :: FirstWithKey(segments, EntityKey, j) && BuiltFrom(extract, ds[i], segments[j])
  {
    var ds := MapSeq(KeepFirst(segments, EntityKey), EntityMaker(extract));
    KeptMapIsFirst(segments, EntityKey, EntityMaker(extract));
    forall i | 0 <= i < |ds|
      ensures exists j: nat :: FirstWithKey(segments, EntityKey, j) && BuiltFrom(extract, ds[i], segments[j])
    {
      var j: nat :| FirstWithKey(segments, EntityKey, j) && ds[i] == EntityMaker(extract)(segments[j]);
      assert BuiltFrom(extract, ds[i], segments[j]);
    }
  }

  /** The definitions of a request come from its segments, each from the first segment with its
      entity name; when no segment gives a non-blank name, the single default definition of
      "Item" stands in. */
  lemma GeneratedFromSegments(extract: string -> seq<ParsedRelationship>, userRequest: Option<string>, segments: seq<string>)
    requires segments == RequestParsing.Segments(Some(Trim(userRequest.GetOr(""))))
    ensures var entities := GenerateOf(extract, userRequest).entities;
            && (KeepFirst(segments, EntityKey) == [] ==> entities == [DefaultEntityDefinition(DefaultEntityName)])
            && (KeepFirst(segments, EntityKey) != [] ==>
                  forall i :: 0 <= i < |entities| ==>
                    exists j: nat :: FirstWithKey(segments, EntityKey, j) && BuiltFrom(extract, entities[i], segments[j]))
  {
    EntitiesFromSegments(extract, GenerateOf(extract, userRequest).entities, segments,
                         MapSeq(KeepFirst(segments, EntityKey), EntityMaker(extract)));
  }

  lemma EntitiesFromSegments(extract: string -> seq<ParsedRelationship>, entities: seq<EntityDefinition>,
                             segments: seq<string>, ds: seq<EntityDefinition>)
    requires ds == MapSeq(KeepFirst(segments, EntityKey), EntityMaker(extract))
    requires entities == if ds == [] then [DefaultEntityDefinition(DefaultEntityName)] else ds
    ensures && (KeepFirst(segments, EntityKey) == [] ==> entities == [DefaultEntityDefinition(DefaultEntityName)])
            && (KeepFirst(segments, EntityKey) != [] ==>
                  forall i :: 0 <= i < |entities| ==>
                    exists j: nat :: FirstWithKey(segments, EntityKey, j) && BuiltFrom(extract, entities[i], segments[j]))
  {
    if ds != [] {
      BuiltFromSegments(extract, segments);
    }
  }

  /** The default definition of "Item": table "items", path "/api/items", every endpoint family
      on, no fields and no relationships; a project named after it is "items-api". */
  lemma DefaultItemDefinition(name: string, plural: string)
    requires name == DefaultEntityName && plural == "items"
    ensures DefaultEntityDefinition(name)
              == EntityDefinition(EntitySpec(name, plural, DefaultIdType, []), ApiSpec("/api/" + plural, true, true, true), [])
    ensures ProjectNameOf(name) == plural + "-api"
  {
    var lower := "item";
    SnakeOfItem(name, lower);
    KebabOfItem(name, lower);
    PluralOfItem(lower, plural);
  }

  lemma SnakeOfItem(w: string, lower: string)
    requires w == "Item" && lower == "item"
    ensures SnakeCase(Some(w)) == lower
  {
    ItemParts();
    SnakeCaseKeepsAcronymsTogether("I", "tem");
  }

  /** "Item" is an upper-case letter before lower-case ones, which lower-case to "item". */
  lemma ItemParts()
    ensures "Item" == "I" + "tem" && Lower("I") + "tem" == "item"
  {
    assert Lower("I") == "i";
  }

  lemma KebabOfItem(w: string, lower: string)
    requires w == "Item" && lower == "item"
    ensures KebabCase(Some(w)) == lower
  {
    SnakeOfItem(w, lower);
    var r := KebabCase(Some(w));
    assert r == ReplaceChar(lower, '_', '-');
    assert r[0] == lower[0] && r[1] == lower[1] && r[2] == lower[2] && r[3] == lower[3];
  }

  lemma PluralOfItem(w: string, plural: string)
    requires w == "item" && plural == "items"
    ensures Pluralize(Some(w)) == plural
  {
    TrimOfTrimmed(w);
    var l := Lower(w);
    assert l[0] == 'i' && l[1] == 't' && l[2] == 'e' && l[3] == 'm';
    assert l[3..] == "m" && l[2..] == "em";
    assert !EndsWith(l, "s") && !TakesEs(l) && !TakesIes(l);
    assert w + "s" == plural;
  }

  /** A blank trimmed request stays blank. */
  lemma TrimOfBlank(s: string)
    requires IsBlank(s)
    ensures IsBlank(Trim(s))
  {
    var r := Trim(s);
    var k :| TrimmedAt(s, r, k);
    forall i | 0 <= i < |r| ensures IsWhitespace(r[i]) {
      assert r[i] == s[k + i];
    }
  }

  /** A null or blank request gives exactly the default definition of "Item" and the project
      "items-api"; a null or empty one also gets the single suggestion "Items". */
  lemma BlankRequest(extract: string -> seq<ParsedRelationship>, userRequest: Option<string>)
    requires IsNullOrBlank(userRequest)
    ensures var r := GenerateOf(extract, userRequest);
            && r.entities == [EntityDefinition(EntitySpec("Item", "items", "Long", []), ApiSpec("/api/" + "items", true, true, true), [])]
            && r.projectName == "items" + "-api"
            && r.basePackage == "com.example.generated"
            && (Trim(userRequest.GetOr("")) == [] ==> r.suggestions == ["Items"])
  {
    var request := Trim(userRequest.GetOr(""));
    if userRequest.Some? {
      TrimOfBlank(userRequest.value);
    }
    RequestParsing.SegmentsTrimmed(Some(request));
    assert EntitiesOf(extract, request) == [];
    DefaultItemDefinition(DefaultEntityName, "items");
    var r := GenerateOf(extract, userRequest);
    assert r.projectName == ProjectNameOf(DefaultEntityName);
    if request == [] {
      EmptyRequestSuggestions(r.projectName, "items");
    }
  }

  /** The suggestions for the empty request and the project "items-api". */
  lemma EmptyRequestSuggestions(projectName: string, plural: string)
    requires plural == "items" && projectName == plural + "-api"
    ensures EntityNameSuggester.SuggestOf(Some([]), Some(projectName)) == ["Items"]
  {
    EntityNameSuggester.LowerOfItems(plural);
    EntityNameSuggester.ProjectHintOfApiName(plural);
    EntityNameSuggester.PascalOfItems(plural);
    var hint := PascalCase(Some(Lower(plural)));
    EmptyRequestHints();
    assert EntityNameSuggester.Candidates(Some([]), Some(projectName)) == [Some(hint), None, None];
    assert !IsWhitespace(hint[0]);
    SuggestOfOne(hint);
  }

  /** The empty request gives neither a "project X" hint nor a first-word hint. */
  lemma EmptyRequestHints()
    ensures EntityNameSuggester.FromExplicitKeyword(Some([])) == None
    ensures EntityNameSuggester.FromFirstWord(Some([])) == None
  {
  }

  lemma SuggestOfOne(a: string)
    requires !IsBlank(a)
    ensures EntityNameSuggester.SuggestFrom([Some(a), None, None]) == [a]
  {
    EntityNameSuggester.GatherOfThree(Some(a), None, None);
  }
}
