/** The documentation plugin: an OpenAPI 3.0.1 document with a list and a create operation for
    each entity's resource path, unless documentation is switched off. */
module DocumentationPlugin {
  import opened Text
  import opened Domain
  import opened Orchestrator

  const Name: string := "documentation-generator"
  const Version: string := "1.0.0"
  const OpenApiPath: string := "src/main/resources/openapi.yaml"

  /** The document header: the OpenAPI version, the title carrying the project name, the API
      version and the start of the paths object. */
  function Head(spec: ApiSpecification): string {
    "openapi: 3.0.1\ninfo:\n" + "  title: " + spec.projectName + "\n" + "  version: 1.0.0\npaths:\n"
  }

  /** The path entry of one entity: a get summarised "List X" and a post summarised "Create X". */
  function PathEntry(d: EntityDefinition): string {
    "  " + d.api.resourcePath + ":\n"
      + "    get:\n"
      + "      summary: List " + d.entity.name + "\n"
      + "    post:\n"
      + "      summary: Create " + d.entity.name + "\n"
  }

  function OpenApiOf(spec: ApiSpecification): string {
    Head(spec) + Emit(spec.entities, PathEntry)
  }

  /** Documentation is off when the configured tool is "none" in any letter case. */
  predicate Disabled(context: PluginContext) {
    EqualsIgnoreCase("none", context.config.standards.documentation.tool)
  }

  /** generate: no file when documentation is off, otherwise the one OpenAPI document. */
  function GenerateOf(spec: ApiSpecification, context: PluginContext): (r: seq<GeneratedFile>)
    ensures Disabled(context) <==> r == []
    ensures !Disabled(context) ==> |r| == 1 && r[0].path == OpenApiPath
  {
    if Disabled(context) then [] else [GeneratedFile(OpenApiPath, OpenApiOf(spec))]
  }

  /** The document opens with the OpenAPI version, then the title line carrying the project name. */
  lemma OpenApiHead(spec: ApiSpecification)
    ensures StartsWith(OpenApiOf(spec), "openapi: 3.0.1\ninfo:\n" + "  title: " + spec.projectName + "\n")
  {
    var title := "openapi: 3.0.1\ninfo:\n" + "  title: " + spec.projectName + "\n";
    StartsWithAppend(title, "  version: 1.0.0\npaths:\n");
    StartsWithExtend(Head(spec), title, Emit(spec.entities, PathEntry));
  }

  /** One path entry per entity in entity order: the k-th follows the header and the entries of
      the entities before it. */
  lemma PathEntriesInOrder(spec: ApiSpecification, k: nat)
    requires k < |spec.entities|
    ensures StartsWith(OpenApiOf(spec), Head(spec) + Emit(spec.entities[..k], PathEntry) + PathEntry(spec.entities[k]))
  {
    EmitPrefix(Head(spec), spec.entities, PathEntry, k);
  }

  /** An entry opens with the resource path and holds the "List X" and "Create X" summaries. */
  lemma PathEntryShape(d: EntityDefinition)
    ensures StartsWith(PathEntry(d), "  " + d.api.resourcePath + ":\n")
    ensures Contains(PathEntry(d), "      summary: List " + d.entity.name + "\n")
    ensures EndsWith(PathEntry(d), "      summary: Create " + d.entity.name + "\n")
  {
    var path := "  " + d.api.resourcePath + ":\n";
    var list := "      summary: List " + d.entity.name + "\n";
    var s1 := path + "    get:\n";
    var s2 := s1 + list;
    var s3 := s2 + "    post:\n";
    var s4 := s3 + "      summary: Create ";
    var s5 := s4 + d.entity.name;
    assert PathEntry(d) == s5 + "\n";
    StartsWithAppend(path, "    get:\n");
    StartsWithExtend(s1, path, list);
    StartsWithExtend(s2, path, "    post:\n");
    StartsWithExtend(s3, path, "      summary: Create ");
    StartsWithExtend(s4, path, d.entity.name);
    StartsWithExtend(s5, path, "\n");
    ContainsAppendEnd(s1, list);
    ContainsExtend(s2, list, "    post:\n");
    ContainsExtend(s3, list, "      summary: Create ");
    ContainsExtend(s4, list, d.entity.name);
    ContainsExtend(s5, list, "\n");
    EndsWithLastThree(s3, "      summary: Create ", d.entity.name, "\n");
  }

  method Generate(spec: ApiSpecification, context: PluginContext) returns (files: seq<GeneratedFile>)
    ensures files == GenerateOf(spec, context)
  {
    if EqualsIgnoreCase("none", context.config.standards.documentation.tool) {
      return [];
    }
    var out := "openapi: 3.0.1\ninfo:\n" + "  title: " + spec.projectName + "\n" + "  version: 1.0.0\npaths:\n";
    var entries := "";
    for i := 0 to |spec.entities|
      invariant entries == Emit(spec.entities[..i], PathEntry)
    {
      assert spec.entities[..i + 1][..i] == spec.entities[..i];
      var definition := spec.entities[i];
      var entry := "  " + definition.api.resourcePath + ":\n"
        + "    get:\n"
        + "      summary: List " + definition.entity.name + "\n"
        + "    post:\n"
        + "      summary: Create " + definition.entity.name + "\n";
      entries := entries + entry;
    }
    assert spec.entities[..|spec.entities|] == spec.entities;
    out := out + entries;
    files := [GeneratedFile(OpenApiPath, out)];
  }
}
