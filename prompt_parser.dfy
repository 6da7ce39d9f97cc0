/** The natural-language prompt parser: the generator's specification, with the project name and
    base package of the configuration taking precedence over the generated ones unless they are
    blank. */
module PromptParser {
  import opened Wrappers
  import opened Text
  import opened Domain
  import opened GenerationConfig
  import SpecGenerator

  /** The generator's specification with the configured names put in. A ProjectConfig component
      is never null, so only the blank test remains of the source's null-or-blank test. */
  function WithConfig(parsed: ApiSpecification, project: ProjectConfig): ApiSpecification {
    var projectName := if IsBlank(project.name) then parsed.projectName else project.name;
    var basePackage := if IsBlank(project.basePackage) then parsed.basePackage else project.basePackage;
    ApiSpecification(projectName, basePackage, parsed.entities, parsed.suggestions)
  }

  /** parse, as a value. */
  function ParseOf(extract: string -> seq<SpecGenerator.ParsedRelationship>, prompt: Option<string>, config: Config): ApiSpecification {
    WithConfig(SpecGenerator.GenerateOf(extract, prompt), config.project)
  }

  method Parse(extract: string -> seq<SpecGenerator.ParsedRelationship>, prompt: Option<string>, config: Config)
    returns (spec: ApiSpecification)
    ensures spec == ParseOf(extract, prompt, config)
  {
    var parsed := SpecGenerator.Generate(extract, prompt);
    var entities := parsed.entities;
    var projectName := config.project.name;
    var basePackage := config.project.basePackage;
    if IsBlank(projectName) {
      projectName := parsed.projectName;
    }
    if IsBlank(basePackage) {
      basePackage := parsed.basePackage;
    }
    spec := ApiSpecification(projectName, basePackage, entities, parsed.suggestions);
  }

  /** The entities (in their order) and the suggestions are passed through; each configured name
      is used exactly when it is not blank, and the generated one otherwise; so the result names
      are never blank when the generated ones are not. */
  lemma WithConfigRules(parsed: ApiSpecification, project: ProjectConfig)
    ensures var r := WithConfig(parsed, project);
            && r.entities == parsed.entities
            && r.suggestions == parsed.suggestions
            && (r.projectName == project.name || r.projectName == parsed.projectName)
            && (r.basePackage == project.basePackage || r.basePackage == parsed.basePackage)
            && (!IsBlank(project.name) <==> r.projectName == project.name && !IsBlank(r.projectName))
            && (!IsBlank(project.basePackage) <==> r.basePackage == project.basePackage && !IsBlank(r.basePackage))
            && (!IsBlank(parsed.projectName) ==> !IsBlank(r.projectName))
            && (!IsBlank(parsed.basePackage) ==> !IsBlank(r.basePackage))
  {
  }

  /** Putting the configured names in twice changes nothing more. */
  lemma WithConfigIdempotent(parsed: ApiSpecification, project: ProjectConfig)
    ensures WithConfig(WithConfig(parsed, project), project) == WithConfig(parsed, project)
  {
  }

  /** A configuration built by its record constructor is normalized, so its project name and base
      package always win. */
  lemma NormalizedConfigWins(extract: string -> seq<SpecGenerator.ParsedRelationship>, prompt: Option<string>, config: Config)
    requires config.project.Normalized()
    ensures var r := ParseOf(extract, prompt, config);
            && r.projectName == config.project.name
            && r.basePackage == config.project.basePackage
            && r.entities == SpecGenerator.GenerateOf(extract, prompt).entities
  {
  }

  /** With a blank configured base package the generator's "com.example.generated" is used. */
  lemma BlankBasePackageIsGenerated(extract: string -> seq<SpecGenerator.ParsedRelationship>, prompt: Option<string>, config: Config)
    requires IsBlank(config.project.basePackage)
    ensures ParseOf(extract, prompt, config).basePackage == SpecGenerator.DefaultBasePackage
  {
    SpecGenerator.GeneratedShape(extract, prompt);
  }
}
