/** The specification a request is turned into: entities with their fields, API flags and
    relationships. Java's final fields become datatype components; strings the constructors
    reject when null are plain strings, and the field attributes that may be null are options. */
module Domain {
  import opened Wrappers

  /** The REST resource of one entity and which endpoint families it gets. */
  datatype ApiSpec = ApiSpec(resourcePath: string, crud: bool, pagination: bool, sorting: bool)

  /** A relationship from the owning entity to `target`, held in the property `fieldName`. */
  datatype RelationshipSpec = RelationshipSpec(relType: string, target: string, fieldName: string)

  /** One field of an entity, in the twelve-attribute shape the generator, validator, JSON writer
      and migration plugin use. */
  datatype FieldSpec = FieldSpec(
    name: string,
    fieldType: string,
    validation: seq<string>,
    unique: bool,
    nullable: bool,
    min: Option<int>,
    max: Option<int>,
    format: Option<string>,
    encrypted: bool,
    enumValues: seq<string>,
    defaultValue: Option<string>,
    calculatedExpression: Option<string>)

  datatype EntitySpec = EntitySpec(name: string, table: string, idType: string, fields: seq<FieldSpec>)

  datatype EntityDefinition = EntityDefinition(entity: EntitySpec, api: ApiSpec, relationships: seq<RelationshipSpec>)

  datatype ApiSpecification = ApiSpecification(
    projectName: string,
    basePackage: string,
    entities: seq<EntityDefinition>,
    suggestions: seq<string>)

  /** The EntityDefinition constructor: a null relationship list is stored as the empty list. */
  function NewEntityDefinition(entity: EntitySpec, api: ApiSpec, relationships: Option<seq<RelationshipSpec>>): (d: EntityDefinition)
    ensures d.entity == entity && d.api == api
    ensures relationships.None? ==> d.relationships == []
    ensures relationships.Some? ==> d.relationships == relationships.value
  {
    EntityDefinition(entity, api, relationships.GetOr([]))
  }
}
