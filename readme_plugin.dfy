/** The project README plugin: one README.md that lists the project, each entity with its resource
    path, fields and relationships, and the suggestions of the specification. */
module ReadmePlugin {
  import opened Text
  import opened Domain
  import opened Orchestrator

  const Name: string := "project-readme-generator"
  const Version: string := "1.0.0"
  const ReadmePath: string := "README.md"

  /** The title line and the line naming the base package. */
  function Header(spec: ApiSpecification): string {
    "# " + spec.projectName + "\n\n" + "Generated REST API entries from " + spec.basePackage + "\n\n"
  }

  function FieldLine(f: FieldSpec): string {
    "- " + f.name + " (" + f.fieldType + ")\n"
  }

  function RelationshipLine(r: RelationshipSpec): string {
    "- " + r.relType + " -> " + r.target + "\n"
  }

  function SuggestionLine(s: string): string {
    "- " + s + "\n"
  }

  /** The heading of an entity's section and its resource-path line. */
  function SectionHead(d: EntityDefinition): string {
    "## " + d.entity.name + "\n" + "- Resource path: " + d.api.resourcePath + "\n"
  }

  /** The relationships part of a section: nothing when the entity has none. */
  function RelationshipBlock(rels: seq<RelationshipSpec>): string {
    if rels == [] then "" else "### Relationships\n" + Emit(rels, RelationshipLine)
  }

  /** One entity's section, closed by an empty line. */
  function Section(d: EntityDefinition): string {
    SectionHead(d) + Emit(d.entity.fields, FieldLine) + RelationshipBlock(d.relationships) + "\n"
  }

  /** The suggestions part: nothing when there are none. */
  function SuggestionBlock(suggestions: seq<string>): string {
    if suggestions == [] then "" else "## Suggestions\n" + Emit(suggestions, SuggestionLine)
  }

  /** The README text. */
  function ReadmeOf(spec: ApiSpecification): string {
    Header(spec) + Emit(spec.entities, Section) + SuggestionBlock(spec.suggestions)
  }

  /** generate: exactly one file, README.md. */
  function GenerateOf(spec: ApiSpecification, context: PluginContext): (r: seq<GeneratedFile>)
    ensures |r| == 1 && r[0].path == ReadmePath
  {
    [GeneratedFile(ReadmePath, ReadmeOf(spec))]
  }

  /** The README opens with the project name as its title and names the base package. */
  lemma ReadmeHead(spec: ApiSpecification)
    ensures StartsWith(ReadmeOf(spec), "# " + spec.projectName + "\n\n")
    ensures Contains(ReadmeOf(spec), "Generated REST API entries from " + spec.basePackage + "\n\n")
  {
    var title := "# " + spec.projectName + "\n\n";
    var s1 := title + "Generated REST API entries from ";
    var s2 := s1 + spec.basePackage;
    var s3 := s2 + "\n\n";
    assert ReadmeOf(spec) == s3 + Emit(spec.entities, Section) + SuggestionBlock(spec.suggestions);
    StartsWithAppend(title, "Generated REST API entries from ");
    StartsWithExtend(s1, title, spec.basePackage);
    StartsWithExtend(s2, title, "\n\n");
    StartsWithExtend(s3, title, Emit(spec.entities, Section));
    StartsWithExtend(s3 + Emit(spec.entities, Section), title, SuggestionBlock(spec.suggestions));
    var line := "Generated REST API entries from " + spec.basePackage + "\n\n";
    assert s3 == title + line;
    ContainsAppendEnd(title, line);
    ContainsExtend(s3, line, Emit(spec.entities, Section));
    ContainsExtend(s3 + Emit(spec.entities, Section), line, SuggestionBlock(spec.suggestions));
  }

  /** The sections come in entity order: the k-th entity's section follows the header and the
      sections of the entities before it. */
  lemma SectionsInOrder(spec: ApiSpecification, k: nat)
    requires k < |spec.entities|
    ensures StartsWith(ReadmeOf(spec), Header(spec) + Emit(spec.entities[..k], Section) + Section(spec.entities[k]))
  {
    var body := Header(spec) + Emit(spec.entities, Section);
    EmitPrefix(Header(spec), spec.entities, Section, k);
    StartsWithExtend(body, Header(spec) + Emit(spec.entities[..k], Section) + Section(spec.entities[k]), SuggestionBlock(spec.suggestions));
  }

  /** A section opens with the entity's heading and resource path, then lists the k-th field
      after the fields before it. */
  lemma SectionLists(d: EntityDefinition, k: nat)
    requires k < |d.entity.fields|
    ensures StartsWith(Section(d), "## " + d.entity.name + "\n" + "- Resource path: " + d.api.resourcePath + "\n")
    ensures StartsWith(Section(d), SectionHead(d) + Emit(d.entity.fields[..k], FieldLine) + FieldLine(d.entity.fields[k]))
  {
    var fields := Emit(d.entity.fields, FieldLine);
    var s1 := SectionHead(d) + fields;
    var s2 := s1 + RelationshipBlock(d.relationships);
    StartsWithAppend(SectionHead(d), fields);
    StartsWithExtend(s1, SectionHead(d), RelationshipBlock(d.relationships));
    StartsWithExtend(s2, SectionHead(d), "\n");
    EmitPrefix(SectionHead(d), d.entity.fields, FieldLine, k);
    var p := SectionHead(d) + Emit(d.entity.fields[..k], FieldLine) + FieldLine(d.entity.fields[k]);
    StartsWithExtend(s1, p, RelationshipBlock(d.relationships));
    StartsWithExtend(s2, p, "\n");
  }

  /** After the field lines, a "### Relationships" header follows exactly when the entity has
      relationships; otherwise the section closes with its empty line. */
  lemma RelationshipsHeaderIff(d: EntityDefinition)
    ensures var rest := Section(d)[|SectionHead(d) + Emit(d.entity.fields, FieldLine)|..];
            && (StartsWith(rest, "### Relationships\n") <==> d.relationships != [])
            && (d.relationships == [] ==> rest == "\n")
  {
    var s1 := SectionHead(d) + Emit(d.entity.fields, FieldLine);
    var block := RelationshipBlock(d.relationships);
    assert Section(d) == s1 + block + "\n";
    assert Section(d)[|s1|..] == block + "\n";
    if d.relationships != [] {
      StartsWithAppend("### Relationships\n", Emit(d.relationships, RelationshipLine));
      StartsWithExtend(block, "### Relationships\n", "\n");
    } else {
      assert block + "\n" == "\n";
    }
  }

  /** After the sections, a "## Suggestions" header follows exactly when there are suggestions;
      otherwise the README ends with the last section. */
  lemma SuggestionsHeaderIff(spec: ApiSpecification)
    ensures var rest := ReadmeOf(spec)[|Header(spec) + Emit(spec.entities, Section)|..];
            && (StartsWith(rest, "## Suggestions\n") <==> spec.suggestions != [])
            && (spec.suggestions == [] ==> rest == "")
  {
    var body := Header(spec) + Emit(spec.entities, Section);
    var block := SuggestionBlock(spec.suggestions);
    assert ReadmeOf(spec)[|body|..] == block;
    if spec.suggestions != [] {
      StartsWithAppend("## Suggestions\n", Emit(spec.suggestions, SuggestionLine));
    }
  }

  /** The section of one entity, as the body of generate's entity loop appends it. */
  method EntitySection(d: EntityDefinition) returns (section: string)
    ensures section == Section(d)
  {
    section := "## " + d.entity.name + "\n" + "- Resource path: " + d.api.resourcePath + "\n";
    var fieldLines := EmitLines(d.entity.fields, FieldLine);
    section := section + fieldLines;
    var block := "";
    if d.relationships != [] {
      var relationshipLines := EmitLines(d.relationships, RelationshipLine);
      block := "### Relationships\n" + relationshipLines;
    }
    section := section + block + "\n";
  }

  method Generate(spec: ApiSpecification, context: PluginContext) returns (files: seq<GeneratedFile>)
    ensures files == GenerateOf(spec, context)
  {
    var out := "# " + spec.projectName + "\n\n" + "Generated REST API entries from " + spec.basePackage + "\n\n";
    var sections := "";
    for i := 0 to |spec.entities|
      invariant sections == Emit(spec.entities[..i], Section)
    {
      assert spec.entities[..i + 1][..i] == spec.entities[..i];
      var section := EntitySection(spec.entities[i]);
      sections := sections + section;
    }
    assert spec.entities[..|spec.entities|] == spec.entities;
    var suggestions := "";
    if spec.suggestions != [] {
      var lines := EmitLines(spec.suggestions, SuggestionLine);
      suggestions := "## Suggestions\n" + lines;
    }
    out := out + sections + suggestions;
    files := [GeneratedFile(ReadmePath, out)];
  }
}
