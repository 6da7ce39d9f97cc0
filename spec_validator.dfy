/** The fail-fast structural check of a specification: project settings, then every entity and
    its fields, then — once all entity names are known — every relationship. */
module SpecValidator {
  import opened Wrappers
  import opened Text
  import opened Domain

  /** The IllegalArgumentException messages, as data. */
  datatype ValidationError =
    | ProjectNameRequired
    | BasePackageRequired
    | NoEntities
    | InvalidEntityName(name: string)
    | DuplicateEntityName(name: string)
    | TableRequired(entity: string)
    | ResourcePathNotAbsolute(path: string)
    | InvalidFieldName(entity: string, field: string)
    | DuplicateField(entity: string, field: string)
    | FieldTypeRequired(entity: string, field: string)
    | InvalidRange(entity: string, field: string)
    | EnumRequiresString(entity: string, field: string)
    | UnsupportedRelationship(entity: string, relType: string)
    | UnknownTarget(entity: string, target: string)
    | InvalidRelationshipField(entity: string, field: string)
    | DuplicateRelationship(entity: string, key: string)

  /** The exception message for each error. */
  function Message(e: ValidationError): string {
    match e
    case ProjectNameRequired => "Project name is required"
    case BasePackageRequired => "Base package is required"
    case NoEntities => "Specification must contain at least one entity"
    case InvalidEntityName(n) => "Invalid entity name: " + n
    case DuplicateEntityName(n) => "Duplicate entity name: " + n
    case TableRequired(n) => "Entity table is required for " + n
    case ResourcePathNotAbsolute(p) => "API resourcePath must start with '/': " + p
    case InvalidFieldName(n, f) => "Invalid field name '" + f + "' in entity " + n
    case DuplicateField(n, f) => "Duplicate field '" + f + "' in entity " + n
    case FieldTypeRequired(n, f) => "Field type is required for '" + f + "' in entity " + n
    case InvalidRange(n, f) => "Invalid range for field '" + f + "' in entity " + n + ": min > max"
    case EnumRequiresString(n, f) => "Enum values require String type for field '" + f + "' in entity " + n
    case UnsupportedRelationship(n, t) => "Unsupported relationship type '" + t + "' in entity " + n
    case UnknownTarget(n, t) => "Unknown relationship target '" + t + "' in entity " + n
    case InvalidRelationshipField(n, f) => "Invalid relationship field name '" + f + "' in entity " + n
    case DuplicateRelationship(n, k) => "Duplicate relationship '" + k + "' in entity " + n
  }

  predicate IsIdentifierChar(c: char) { IsAlnum(c) || c == '_' }

  /** ^[A-Z][A-Za-z0-9_]*$ */
  predicate IsEntityName(s: string) {
    |s| > 0 && IsUpper(s[0]) && forall i :: 1 <= i < |s| ==> IsIdentifierChar(s[i])
  }

  /** ^[a-z][A-Za-z0-9_]*$ */
  predicate IsFieldName(s: string) {
    |s| > 0 && IsLower(s[0]) && forall i :: 1 <= i < |s| ==> IsIdentifierChar(s[i])
  }

  predicate IsSupportedRelation(t: string) {
    t in {"OneToOne", "OneToMany", "ManyToOne", "ManyToMany"}
  }

  /** The string a relationship is deduplicated by: type, target and field name joined by ':'. */
  function RelationKey(r: RelationshipSpec): string {
    r.relType + ":" + r.target + ":" + r.fieldName
  }

  // ---------------------------------------------------------------------------------------
  // The checks in the order the source makes them, each list scanned from the front with the
  // set of names seen so far.

  /** validateFields from the field list's current position, `names` holding the names seen. */
  function FieldsOutcome(entityName: string, fields: seq<FieldSpec>, names: set<string>): Outcome<ValidationError>
    decreases |fields|
  {
    if fields == [] then Pass
    else
      var f := fields[0];
      if !IsFieldName(f.name) then Fail(InvalidFieldName(entityName, f.name))
      else if f.name in names then Fail(DuplicateField(entityName, f.name))
      else if IsBlank(f.fieldType) then Fail(FieldTypeRequired(entityName, f.name))
      else if f.min.Some? && f.max.Some? && f.min.value > f.max.value then Fail(InvalidRange(entityName, f.name))
      else if f.enumValues != [] && f.fieldType != "String" then Fail(EnumRequiresString(entityName, f.name))
      else FieldsOutcome(entityName, fields[1..], names + {f.name})
  }

  /** validateRelationships from the current position, `keys` holding the keys seen. */
  function RelationshipsOutcome(
    entityName: string, relationships: seq<RelationshipSpec>, entityNames: set<string>, keys: set<string>): Outcome<ValidationError>
    decreases |relationships|
  {
    if relationships == [] then Pass
    else
      var r := relationships[0];
      if !IsSupportedRelation(r.relType) then Fail(UnsupportedRelationship(entityName, r.relType))
      else if r.target !in entityNames then Fail(UnknownTarget(entityName, r.target))
      else if !IsFieldName(r.fieldName) then Fail(InvalidRelationshipField(entityName, r.fieldName))
      else if RelationKey(r) in keys then Fail(DuplicateRelationship(entityName, RelationKey(r)))
      else RelationshipsOutcome(entityName, relationships[1..], entityNames, keys + {RelationKey(r)})
  }

  /** The first pass over the entities; on success, the set of all entity names. */
  function EntityPass(definitions: seq<EntityDefinition>, entityNames: set<string>): Result<set<string>, ValidationError>
    decreases |definitions|
  {
    if definitions == [] then Success(entityNames)
    else
      var d := definitions[0];
      var name := d.entity.name;
      if !IsEntityName(name) then Failure(InvalidEntityName(name))
      else if name in entityNames then Failure(DuplicateEntityName(name))
      else if IsBlank(d.entity.table) then Failure(TableRequired(name))
      else if !StartsWith(d.api.resourcePath, "/") then Failure(ResourcePathNotAbsolute(d.api.resourcePath))
      else match FieldsOutcome(name, d.entity.fields, {})
        case Fail(e) => Failure(e)
        case Pass => EntityPass(definitions[1..], entityNames + {name})
  }

  /** The second pass: each entity's relationships against the complete set of entity names. */
  function RelationPass(definitions: seq<EntityDefinition>, entityNames: set<string>): Outcome<ValidationError>
    decreases |definitions|
  {
    if definitions == [] then Pass
    else match RelationshipsOutcome(definitions[0].entity.name, definitions[0].relationships, entityNames, {})
      case Fail(e) => Fail(e)
      case Pass => RelationPass(definitions[1..], entityNames)
  }

  /** validate, as a function of the specification. */
  function ValidationOutcome(spec: ApiSpecification): Outcome<ValidationError> {
    if IsBlank(spec.projectName) then Fail(ProjectNameRequired)
    else if IsBlank(spec.basePackage) then Fail(BasePackageRequired)
    else if spec.entities == [] then Fail(NoEntities)
    else match EntityPass(spec.entities, {})
      case Failure(e) => Fail(e)
      case Success(names) => RelationPass(spec.entities, names)
  }

  // ---------------------------------------------------------------------------------------
  // The loops of the source.

  method ValidateFields(entityName: string, fields: seq<FieldSpec>) returns (outcome: Outcome<ValidationError>)
    ensures outcome == FieldsOutcome(entityName, fields, {})
  {
    var names: set<string> := {};
    for i := 0 to |fields|
      invariant FieldsOutcome(entityName, fields[i..], names) == FieldsOutcome(entityName, fields, {})
    {
      var field := fields[i];
      assert fields[i..][1..] == fields[i + 1..];
      if !IsFieldName(field.name) {
        return Fail(InvalidFieldName(entityName, field.name));
      }
      if field.name in names {
        return Fail(DuplicateField(entityName, field.name));
      }
      names := names + {field.name};
      if IsBlank(field.fieldType) {
        return Fail(FieldTypeRequired(entityName, field.name));
      }
      if field.min.Some? && field.max.Some? && field.min.value > field.max.value {
        return Fail(InvalidRange(entityName, field.name));
      }
      if field.enumValues != [] && field.fieldType != "String" {
        return Fail(EnumRequiresString(entityName, field.name));
      }
    }
    assert fields[|fields|..] == [];
    return Pass;
  }

  method ValidateRelationships(entityName: string, relationships: seq<RelationshipSpec>, entityNames: set<string>)
    returns (outcome: Outcome<ValidationError>)
    ensures outcome == RelationshipsOutcome(entityName, relationships, entityNames, {})
  {
    var relationKeys: set<string> := {};
    for i := 0 to |relationships|
      invariant RelationshipsOutcome(entityName, relationships[i..], entityNames, relationKeys)
                == RelationshipsOutcome(entityName, relationships, entityNames, {})
    {
      var relationship := relationships[i];
      assert relationships[i..][1..] == relationships[i + 1..];
      if !IsSupportedRelation(relationship.relType) {
        return Fail(UnsupportedRelationship(entityName, relationship.relType));
      }
      if relationship.target !in entityNames {
        return Fail(UnknownTarget(entityName, relationship.target));
      }
      if !IsFieldName(relationship.fieldName) {
        return Fail(InvalidRelationshipField(entityName, relationship.fieldName));
      }
      var key := relationship.relType + ":" + relationship.target + ":" + relationship.fieldName;
      if key in relationKeys {
        return Fail(DuplicateRelationship(entityName, key));
      }
      relationKeys := relationKeys + {key};
    }
    assert relationships[|relationships|..] == [];
    return Pass;
  }

  /** validate: returns the first failing check, or Pass; the specification is a value and is
      left as it was. */
  method Validate(spec: ApiSpecification) returns (outcome: Outcome<ValidationError>)
    ensures outcome == ValidationOutcome(spec)
  {
    if IsBlank(spec.projectName) {
      return Fail(ProjectNameRequired);
    }
    if IsBlank(spec.basePackage) {
      return Fail(BasePackageRequired);
    }
    if spec.entities == [] {
      return Fail(NoEntities);
    }
    var entities := spec.entities;
    var entityNames: set<string> := {};
    for i := 0 to |entities|
      invariant EntityPass(entities[i..], entityNames) == EntityPass(entities, {})
    {
      var definition := entities[i];
      var name := definition.entity.name;
      assert entities[i..][1..] == entities[i + 1..];
      if !IsEntityName(name) {
        return Fail(InvalidEntityName(name));
      }
      if name in entityNames {
        return Fail(DuplicateEntityName(name));
      }
      entityNames := entityNames + {name};
      if IsBlank(definition.entity.table) {
        return Fail(TableRequired(name));
      }
      if !StartsWith(definition.api.resourcePath, "/") {
        return Fail(ResourcePathNotAbsolute(definition.api.resourcePath));
      }
      var fieldsOutcome := ValidateFields(name, definition.entity.fields);
      if fieldsOutcome.Fail? {
        return fieldsOutcome;
      }
    }
    assert entities[|entities|..] == [];
    for i := 0 to |entities|
      invariant RelationPass(entities[i..], entityNames) == RelationPass(entities, entityNames)
    {
      var definition := entities[i];
      assert entities[i..][1..] == entities[i + 1..];
      var relationsOutcome := ValidateRelationships(definition.entity.name, definition.relationships, entityNames);
      if relationsOutcome.Fail? {
        return relationsOutcome;
      }
    }
    assert entities[|entities|..] == [];
    return Pass;
  }

  // ---------------------------------------------------------------------------------------
  // What a specification that passes looks like, stated without any order of checks.

  predicate FieldOk(f: FieldSpec) {
    && IsFieldName(f.name)
    && !IsBlank(f.fieldType)
    && !(f.min.Some? && f.max.Some? && f.min.value > f.max.value)
    && (f.enumValues != [] ==> f.fieldType == "String")
  }

  predicate FieldsOk(fields: seq<FieldSpec>) {
    && (forall i :: 0 <= i < |fields| ==> FieldOk(fields[i]))
    && (forall i, j :: 0 <= i < j < |fields| ==> fields[i].name != fields[j].name)
  }

  predicate RelationOk(r: RelationshipSpec, entityNames: set<string>) {
    IsSupportedRelation(r.relType) && r.target in entityNames && IsFieldName(r.fieldName)
  }

  /** Every relationship is well formed and no (type, target, field name) triple repeats. */
  predicate RelationsOk(relationships: seq<RelationshipSpec>, entityNames: set<string>) {
    && (forall i :: 0 <= i < |relationships| ==> RelationOk(relationships[i], entityNames))
    && (forall i, j :: 0 <= i < j < |relationships| ==> relationships[i] != relationships[j])
  }

  predicate EntityOk(d: EntityDefinition) {
    && IsEntityName(d.entity.name)
    && !IsBlank(d.entity.table)
    && StartsWith(d.api.resourcePath, "/")
    && FieldsOk(d.entity.fields)
  }

  function EntityNames(definitions: seq<EntityDefinition>): set<string> {
    set i | 0 <= i < |definitions| :: definitions[i].entity.name
  }

  predicate DistinctEntityNames(definitions: seq<EntityDefinition>) {
    forall i, j :: 0 <= i < j < |definitions| ==> definitions[i].entity.name != definitions[j].entity.name
  }

  predicate WellFormed(spec: ApiSpecification) {
    && !IsBlank(spec.projectName)
    && !IsBlank(spec.basePackage)
    && |spec.entities| > 0
    && (forall i :: 0 <= i < |spec.entities| ==> EntityOk(spec.entities[i]))
    && DistinctEntityNames(spec.entities)
    && (forall i :: 0 <= i < |spec.entities| ==>
          RelationsOk(spec.entities[i].relationships, EntityNames(spec.entities)))
  }

  lemma {:induction false} FieldsOutcomeIff(entityName: string, fields: seq<FieldSpec>, names: set<string>)
    ensures FieldsOutcome(entityName, fields, names).Pass? <==>
              FieldsOk(fields) && forall i :: 0 <= i < |fields| ==> fields[i].name !in names
    decreases |fields|
  {
    if fields != [] {
      var f := fields[0];
      var rest := fields[1..];
      FieldsOutcomeIff(entityName, rest, names + {f.name});
      if FieldsOk(fields) && forall i :: 0 <= i < |fields| ==> fields[i].name !in names {
        assert FieldOk(f) && f.name !in names;
        forall i | 0 <= i < |rest|
          ensures rest[i].name !in names + {f.name}
        {
          assert rest[i] == fields[i + 1];
        }
        assert FieldsOk(rest) by {
          forall i, j | 0 <= i < j < |rest|
            ensures rest[i].name != rest[j].name
          {
            assert rest[i] == fields[i + 1] && rest[j] == fields[j + 1];
          }
        }
      }
      if FieldsOutcome(entityName, fields, names).Pass? {
        assert FieldsOk(fields) by {
          forall i | 0 <= i < |fields| ensures FieldOk(fields[i]) {
            if i > 0 { assert fields[i] == rest[i - 1]; }
          }
          forall i, j | 0 <= i < j < |fields| ensures fields[i].name != fields[j].name {
            assert fields[j] == rest[j - 1];
            if i > 0 { assert fields[i] == rest[i - 1]; }
          }
        }
        forall i | 0 <= i < |fields| ensures fields[i].name !in names {
          if i > 0 { assert fields[i] == rest[i - 1]; }
        }
      }
    }
  }

  /** ':' occurs nowhere in s. */
  predicate ColonFree(s: string) { forall i :: 0 <= i < |s| ==> s[i] != ':' }

  /** Index of the last ':' of s. */
  function LastColon(s: string): (k: nat)
    requires ':' in s
    ensures k < |s| && s[k] == ':'
  {
    if s[|s| - 1] == ':' then |s| - 1 else LastColon(s[..|s| - 1])
  }

  lemma {:induction false} FirstColonOf(a: string, rest: string)
    requires ColonFree(a)
    ensures ':' in a + ":" + rest && FirstIndex(a + ":" + rest, ':') == |a|
  {
    var k := a + ":" + rest;
    assert k[|a|] == ':';
    if a != [] {
      assert k[1..] == a[1..] + ":" + rest;
      FirstColonOf(a[1..], rest);
    }
  }

  lemma {:induction false} LastColonOf(b: string, c: string)
    requires ColonFree(c)
    ensures ':' in b + ":" + c && LastColon(b + ":" + c) == |b|
    decreases |c|
  {
    var k := b + ":" + c;
    assert k[|b|] == ':';
    if c != [] {
      assert k[..|k| - 1] == b + ":" + c[..|c| - 1];
      LastColonOf(b, c[..|c| - 1]);
    }
  }

  /** Joining at ':' is injective when the left parts contain no ':'. */
  lemma SplitAtFirstColon(a1: string, b1: string, a2: string, b2: string)
    requires ColonFree(a1) && ColonFree(a2)
    requires a1 + ":" + b1 == a2 + ":" + b2
    ensures a1 == a2 && b1 == b2
  {
    var k := a1 + ":" + b1;
    FirstColonOf(a1, b1);
    FirstColonOf(a2, b2);
    assert a1 == k[..|a1|] && a2 == k[..|a2|];
    assert b1 == k[|a1| + 1..] && b2 == k[|a2| + 1..];
  }

  /** Joining at ':' is injective when the right parts contain no ':'. */
  lemma SplitAtLastColon(a1: string, b1: string, a2: string, b2: string)
    requires ColonFree(b1) && ColonFree(b2)
    requires a1 + ":" + b1 == a2 + ":" + b2
    ensures a1 == a2 && b1 == b2
  {
    var k := a1 + ":" + b1;
    LastColonOf(a1, b1);
    LastColonOf(a2, b2);
    assert a1 == k[..|a1|] && a2 == k[..|a2|];
    assert b1 == k[|a1| + 1..] && b2 == k[|a2| + 1..];
  }

  /** A relationship whose type and field name contain no ':' is determined by its key. */
  lemma RelationKeyInjective(r1: RelationshipSpec, r2: RelationshipSpec)
    requires ColonFree(r1.relType) && ColonFree(r2.relType)
    requires ColonFree(r1.fieldName) && ColonFree(r2.fieldName)
    requires RelationKey(r1) == RelationKey(r2)
    ensures r1 == r2
  {
    var t1 := r1.target + ":" + r1.fieldName;
    var t2 := r2.target + ":" + r2.fieldName;
    assert RelationKey(r1) == r1.relType + ":" + t1;
    assert RelationKey(r2) == r2.relType + ":" + t2;
    SplitAtFirstColon(r1.relType, t1, r2.relType, t2);
    SplitAtLastColon(r1.target, r1.fieldName, r2.target, r2.fieldName);
  }

  lemma {:induction false} RelationshipsOutcomeIff(
    entityName: string, relationships: seq<RelationshipSpec>, entityNames: set<string>, keys: set<string>)
    ensures RelationshipsOutcome(entityName, relationships, entityNames, keys).Pass? <==>
              && (forall i :: 0 <= i < |relationships| ==> RelationOk(relationships[i], entityNames))
              && (forall i :: 0 <= i < |relationships| ==> RelationKey(relationships[i]) !in keys)
              && (forall i, j :: 0 <= i < j < |relationships| ==> RelationKey(relationships[i]) != RelationKey(relationships[j]))
    decreases |relationships|
  {
    if relationships != [] {
      var r := relationships[0];
      var rest := relationships[1..];
      RelationshipsOutcomeIff(entityName, rest, entityNames, keys + {RelationKey(r)});
      forall i | 0 <= i < |rest| ensures rest[i] == relationships[i + 1] { }
    }
  }

  /** Two different well-formed relationships have different keys. */
  lemma KeysDiffer(r1: RelationshipSpec, r2: RelationshipSpec, entityNames: set<string>)
    requires RelationOk(r1, entityNames) && RelationOk(r2, entityNames)
    requires r1 != r2
    ensures RelationKey(r1) != RelationKey(r2)
  {
    SupportedRelationHasNoColon(r1.relType);
    SupportedRelationHasNoColon(r2.relType);
    if RelationKey(r1) == RelationKey(r2) {
      RelationKeyInjective(r1, r2);
    }
  }

  lemma SupportedRelationHasNoColon(t: string)
    requires IsSupportedRelation(t)
    ensures ColonFree(t)
  {
  }

  /** Under well-formed types and field names, distinct keys mean distinct relationships. */
  lemma DistinctKeysIff(relationships: seq<RelationshipSpec>, entityNames: set<string>)
    requires forall i :: 0 <= i < |relationships| ==> RelationOk(relationships[i], entityNames)
    ensures (forall i, j :: 0 <= i < j < |relationships| ==> RelationKey(relationships[i]) != RelationKey(relationships[j]))
            <==> (forall i, j :: 0 <= i < j < |relationships| ==> relationships[i] != relationships[j])
  {
    if forall i, j :: 0 <= i < j < |relationships| ==> relationships[i] != relationships[j] {
      forall i, j | 0 <= i < j < |relationships|
        ensures RelationKey(relationships[i]) != RelationKey(relationships[j])
      {
        KeysDiffer(relationships[i], relationships[j], entityNames);
      }
    }
  }

  lemma RelationshipsPassIff(entityName: string, relationships: seq<RelationshipSpec>, entityNames: set<string>)
    ensures RelationshipsOutcome(entityName, relationships, entityNames, {}).Pass? <==> RelationsOk(relationships, entityNames)
  {
    RelationshipsOutcomeIff(entityName, relationships, entityNames, {});
    if forall i :: 0 <= i < |relationships| ==> RelationOk(relationships[i], entityNames) {
      DistinctKeysIff(relationships, entityNames);
    }
  }

  lemma EntityNamesCons(definitions: seq<EntityDefinition>)
    requires definitions != []
    ensures EntityNames(definitions) == {definitions[0].entity.name} + EntityNames(definitions[1..])
  {
    var rest := definitions[1..];
    forall n | n in EntityNames(definitions) ensures n in {definitions[0].entity.name} + EntityNames(rest) {
      var i :| 0 <= i < |definitions| && definitions[i].entity.name == n;
      if i > 0 { assert n == rest[i - 1].entity.name; }
    }
    forall n | n in EntityNames(rest) ensures n in EntityNames(definitions) {
      var i :| 0 <= i < |rest| && rest[i].entity.name == n;
      assert definitions[i + 1] == rest[i];
    }
  }

  /** One step of the entity pass: the first definition is checked, then the rest with its
      name added. */
  lemma EntityPassStep(definitions: seq<EntityDefinition>, entityNames: set<string>)
    requires definitions != []
    ensures var d := definitions[0];
            var next := EntityPass(definitions[1..], entityNames + {d.entity.name});
            && (EntityPass(definitions, entityNames).Success? <==>
                  EntityOk(d) && d.entity.name !in entityNames && next.Success?)
            && (EntityPass(definitions, entityNames).Success? ==>
                  EntityPass(definitions, entityNames).value == next.value)
  {
    var d := definitions[0];
    FieldsOutcomeIff(d.entity.name, d.entity.fields, {});
  }

  /** Every definition well-formed, none named in entityNames, no name twice. */
  predicate EntitiesOk(definitions: seq<EntityDefinition>, entityNames: set<string>) {
    && (forall i :: 0 <= i < |definitions| ==> EntityOk(definitions[i]))
    && (forall i :: 0 <= i < |definitions| ==> definitions[i].entity.name !in entityNames)
    && DistinctEntityNames(definitions)
  }

  /** EntitiesOk checked at the head, then on the rest with the head's name added. */
  lemma EntitiesOkCons(definitions: seq<EntityDefinition>, entityNames: set<string>)
    requires definitions != []
    ensures var d := definitions[0];
            EntitiesOk(definitions, entityNames) <==>
              EntityOk(d) && d.entity.name !in entityNames
              && EntitiesOk(definitions[1..], entityNames + {d.entity.name})
  {
    var d := definitions[0];
    var rest := definitions[1..];
    var names' := entityNames + {d.entity.name};
    if EntitiesOk(definitions, entityNames) {
      forall i | 0 <= i < |rest| ensures rest[i].entity.name !in names' {
        assert rest[i] == definitions[i + 1];
      }
      forall i, j | 0 <= i < j < |rest| ensures rest[i].entity.name != rest[j].entity.name {
        assert rest[i] == definitions[i + 1] && rest[j] == definitions[j + 1];
      }
      forall i | 0 <= i < |rest| ensures EntityOk(rest[i]) {
        assert rest[i] == definitions[i + 1];
      }
    }
    if EntityOk(d) && d.entity.name !in entityNames && EntitiesOk(rest, names') {
      forall i | 0 <= i < |definitions| ensures EntityOk(definitions[i]) && definitions[i].entity.name !in entityNames {
        if i > 0 { assert definitions[i] == rest[i - 1]; }
      }
      forall i, j | 0 <= i < j < |definitions| ensures definitions[i].entity.name != definitions[j].entity.name {
        assert definitions[j] == rest[j - 1];
        if i > 0 { assert definitions[i] == rest[i - 1]; }
      }
    }
  }

  lemma {:induction false} EntityPassIff(definitions: seq<EntityDefinition>, entityNames: set<string>)
    ensures EntityPass(definitions, entityNames).Success? <==> EntitiesOk(definitions, entityNames)
    ensures EntityPass(definitions, entityNames).Success? ==>
              EntityPass(definitions, entityNames).value == entityNames + EntityNames(definitions)
    decreases |definitions|
  {
    if definitions != [] {
      var d := definitions[0];
      EntityPassStep(definitions, entityNames);
      EntityPassIff(definitions[1..], entityNames + {d.entity.name});
      EntitiesOkCons(definitions, entityNames);
      EntityNamesCons(definitions);
    } else {
      assert EntityNames(definitions) == {};
    }
  }

  lemma {:induction false} RelationPassIff(definitions: seq<EntityDefinition>, entityNames: set<string>)
    ensures RelationPass(definitions, entityNames).Pass? <==>
              forall i :: 0 <= i < |definitions| ==> RelationsOk(definitions[i].relationships, entityNames)
    decreases |definitions|
  {
    if definitions != [] {
      var rest := definitions[1..];
      RelationshipsPassIff(definitions[0].entity.name, definitions[0].relationships, entityNames);
      RelationPassIff(rest, entityNames);
      forall i | 0 <= i < |rest| ensures rest[i] == definitions[i + 1] { }
    }
  }

  /** The errors the relationship pass reports. */
  predicate IsRelationshipError(e: ValidationError) {
    e.UnsupportedRelationship? || e.UnknownTarget? || e.InvalidRelationshipField? || e.DuplicateRelationship?
  }

  /** The field checks never report a relationship error. */
  lemma {:induction false} FieldErrorsAreNotRelationshipErrors(entityName: string, fields: seq<FieldSpec>, names: set<string>)
    ensures FieldsOutcome(entityName, fields, names).Fail? ==> !IsRelationshipError(FieldsOutcome(entityName, fields, names).error)
    decreases |fields|
  {
    if fields != [] {
      FieldErrorsAreNotRelationshipErrors(entityName, fields[1..], names + {fields[0].name});
    }
  }

  /** The entity pass never reports a relationship error. */
  lemma {:induction false} EntityErrorsAreNotRelationshipErrors(definitions: seq<EntityDefinition>, entityNames: set<string>)
    ensures EntityPass(definitions, entityNames).Failure? ==> !IsRelationshipError(EntityPass(definitions, entityNames).error)
    decreases |definitions|
  {
    if definitions != [] {
      var d := definitions[0];
      FieldErrorsAreNotRelationshipErrors(d.entity.name, d.entity.fields, {});
      EntityErrorsAreNotRelationshipErrors(definitions[1..], entityNames + {d.entity.name});
    }
  }

  /** Fail-fast order: a relationship error is reported only once the project settings, every
      entity and every field have passed, with all entity names distinct. */
  lemma RelationshipErrorsComeLast(spec: ApiSpecification)
    requires ValidationOutcome(spec).Fail? && IsRelationshipError(ValidationOutcome(spec).error)
    ensures !IsBlank(spec.projectName) && !IsBlank(spec.basePackage) && spec.entities != []
    ensures forall i :: 0 <= i < |spec.entities| ==> EntityOk(spec.entities[i])
    ensures DistinctEntityNames(spec.entities)
  {
    EntityErrorsAreNotRelationshipErrors(spec.entities, {});
    EntityPassIff(spec.entities, {});
  }

  /** validate returns normally exactly for the well-formed specifications. */
  lemma ValidationPassIff(spec: ApiSpecification)
    ensures ValidationOutcome(spec).Pass? <==> WellFormed(spec)
  {
    EntityPassIff(spec.entities, {});
    if EntityPass(spec.entities, {}).Success? {
      RelationPassIff(spec.entities, EntityPass(spec.entities, {}).value);
    }
  }
}
