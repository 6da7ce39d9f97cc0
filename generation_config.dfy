/** The generation configuration: immutable records whose constructors replace null or blank
    strings and null sub-records by defaults, and the plugin enable/disable lists. */
module GenerationConfig {
  import opened Wrappers
  import opened Text

  /** normalize: the fallback replaces a null or blank value. */
  function Normalize(value: Option<string>, fallback: string): (r: string)
    ensures value.None? || IsBlank(value.value) ==> r == fallback
    ensures value.Some? && !IsBlank(value.value) ==> r == value.value
  {
    if value.None? || IsBlank(value.value) then fallback else value.value
  }

  /** Normalizing with a non-blank fallback never gives a blank string, and a non-blank value is
      kept as it is. */
  lemma NormalizeNonBlank(value: Option<string>, fallback: string)
    requires !IsBlank(fallback)
    ensures !IsBlank(Normalize(value, fallback))
    ensures Normalize(Some(Normalize(value, fallback)), fallback) == Normalize(value, fallback)
  {
  }

  datatype ProjectConfig = ProjectConfig(
    name: string, basePackage: string, springBootVersion: string, javaVersion: string, templatePack: string)
  {
    /** What the record constructor guarantees: no component is blank. */
    predicate Normalized() {
      !IsBlank(name) && !IsBlank(basePackage) && !IsBlank(springBootVersion)
        && !IsBlank(javaVersion) && !IsBlank(templatePack)
    }
  }

  const DefaultTemplatePack: string := "spring-boot-3-standard"

  /** The ProjectConfig record constructor. */
  function NewProjectConfig(
    name: Option<string>, basePackage: Option<string>, springBootVersion: Option<string>,
    javaVersion: Option<string>, templatePack: Option<string>): (p: ProjectConfig)
    ensures p.Normalized()
    ensures p.templatePack == Normalize(templatePack, DefaultTemplatePack)
    ensures p.name == Normalize(name, "generated-api")
  {
    assert !IsWhitespace("generated-api"[0]) && !IsWhitespace("com.example.generated"[0]);
    assert !IsWhitespace("3.2.1"[0]) && !IsWhitespace("17"[0]) && !IsWhitespace(DefaultTemplatePack[0]);
    NormalizeNonBlank(name, "generated-api");
    NormalizeNonBlank(basePackage, "com.example.generated");
    NormalizeNonBlank(springBootVersion, "3.2.1");
    NormalizeNonBlank(javaVersion, "17");
    NormalizeNonBlank(templatePack, DefaultTemplatePack);
    ProjectConfig(
      Normalize(name, "generated-api"),
      Normalize(basePackage, "com.example.generated"),
      Normalize(springBootVersion, "3.2.1"),
      Normalize(javaVersion, "17"),
      Normalize(templatePack, DefaultTemplatePack))
  }

  function DefaultProjectConfig(): ProjectConfig {
    ProjectConfig("generated-api", "com.example.generated", "3.2.1", "17", DefaultTemplatePack)
  }

  datatype NamingConfig = NamingConfig(
    entitySuffix: string, dtoSuffix: string, repositorySuffix: string, serviceSuffix: string, controllerSuffix: string)

  function NewNamingConfig(
    entitySuffix: Option<string>, dtoSuffix: Option<string>, repositorySuffix: Option<string>,
    serviceSuffix: Option<string>, controllerSuffix: Option<string>): NamingConfig
  {
    NamingConfig(
      Normalize(entitySuffix, ""), Normalize(dtoSuffix, "DTO"), Normalize(repositorySuffix, "Repository"),
      Normalize(serviceSuffix, "Service"), Normalize(controllerSuffix, "Controller"))
  }

  datatype LayeringConfig = LayeringConfig(architecture: string, includeServiceLayer: bool, includeDtoMapper: bool)

  function NewLayeringConfig(architecture: Option<string>, includeServiceLayer: bool, includeDtoMapper: bool): LayeringConfig {
    LayeringConfig(Normalize(architecture, "layered"), includeServiceLayer, includeDtoMapper)
  }

  datatype DatabaseConfig = DatabaseConfig(dbType: string, namingStrategy: string, includeAuditing: bool, migrationTool: string)

  function NewDatabaseConfig(
    dbType: Option<string>, namingStrategy: Option<string>, includeAuditing: bool, migrationTool: Option<string>): DatabaseConfig
  {
    DatabaseConfig(Normalize(dbType, "postgresql"), Normalize(namingStrategy, "snake_case"), includeAuditing,
      Normalize(migrationTool, "flyway"))
  }

  datatype ValidationConfig = ValidationConfig(library: string, includeCustomValidators: bool)

  function NewValidationConfig(library: Option<string>, includeCustomValidators: bool): ValidationConfig {
    ValidationConfig(Normalize(library, "jakarta"), includeCustomValidators)
  }

  datatype DocumentationConfig = DocumentationConfig(tool: string, includeExamples: bool)

  function NewDocumentationConfig(tool: Option<string>, includeExamples: bool): DocumentationConfig {
    DocumentationConfig(Normalize(tool, "springdoc"), includeExamples)
  }

  datatype TestingConfig = TestingConfig(
    includeUnitTests: bool, includeIntegrationTests: bool, testFramework: string, mockingLibrary: string)

  function NewTestingConfig(
    includeUnitTests: bool, includeIntegrationTests: bool, testFramework: Option<string>, mockingLibrary: Option<string>): TestingConfig
  {
    TestingConfig(includeUnitTests, includeIntegrationTests, Normalize(testFramework, "junit5"), Normalize(mockingLibrary, "mockito"))
  }

  datatype SecurityConfig = SecurityConfig(enabled: bool, securityType: string)

  function NewSecurityConfig(enabled: bool, securityType: Option<string>): SecurityConfig {
    SecurityConfig(enabled, Normalize(securityType, "none"))
  }

  datatype ErrorHandlingConfig = ErrorHandlingConfig(strategy: string, includeCustomExceptions: bool, responseFormat: string)

  function NewErrorHandlingConfig(strategy: Option<string>, includeCustomExceptions: bool, responseFormat: Option<string>): ErrorHandlingConfig {
    ErrorHandlingConfig(Normalize(strategy, "global-exception-handler"), includeCustomExceptions, Normalize(responseFormat, "rfc7807"))
  }

  datatype ResponseFormatConfig = ResponseFormatConfig(
    wrapResponses: bool, successWrapper: string, errorWrapper: string, includePagination: bool)

  function NewResponseFormatConfig(
    wrapResponses: bool, successWrapper: Option<string>, errorWrapper: Option<string>, includePagination: bool): ResponseFormatConfig
  {
    ResponseFormatConfig(wrapResponses, Normalize(successWrapper, "ApiResponse"), Normalize(errorWrapper, "ErrorResponse"), includePagination)
  }

  datatype StandardsConfig = StandardsConfig(
    naming: NamingConfig,
    layering: LayeringConfig,
    database: DatabaseConfig,
    validation: ValidationConfig,
    documentation: DocumentationConfig,
    testing: TestingConfig,
    security: SecurityConfig,
    errorHandling: ErrorHandlingConfig,
    responseFormat: ResponseFormatConfig)

  function DefaultStandardsConfig(): StandardsConfig {
    StandardsConfig(
      NamingConfig("", "DTO", "Repository", "Service", "Controller"),
      LayeringConfig("layered", true, true),
      DatabaseConfig("postgresql", "snake_case", true, "flyway"),
      ValidationConfig("jakarta", true),
      DocumentationConfig("springdoc", true),
      TestingConfig(true, true, "junit5", "mockito"),
      SecurityConfig(false, "none"),
      ErrorHandlingConfig("global-exception-handler", true, "rfc7807"),
      ResponseFormatConfig(true, "ApiResponse", "ErrorResponse", true))
  }

  /** The StandardsConfig record constructor: each null sub-record becomes its default. */
  function NewStandardsConfig(
    naming: Option<NamingConfig>, layering: Option<LayeringConfig>, database: Option<DatabaseConfig>,
    validation: Option<ValidationConfig>, documentation: Option<DocumentationConfig>, testing: Option<TestingConfig>,
    security: Option<SecurityConfig>, errorHandling: Option<ErrorHandlingConfig>,
    responseFormat: Option<ResponseFormatConfig>): StandardsConfig
  {
    var d := DefaultStandardsConfig();
    StandardsConfig(
      naming.GetOr(d.naming), layering.GetOr(d.layering), database.GetOr(d.database),
      validation.GetOr(d.validation), documentation.GetOr(d.documentation), testing.GetOr(d.testing),
      security.GetOr(d.security), errorHandling.GetOr(d.errorHandling), responseFormat.GetOr(d.responseFormat))
  }

  datatype FeaturesConfig = FeaturesConfig(auditing: bool, softDelete: bool, versioning: bool, caching: bool)

  function DefaultFeaturesConfig(): FeaturesConfig {
    FeaturesConfig(true, false, false, false)
  }

  datatype PluginsConfig = PluginsConfig(
    enabled: seq<string>, disabled: seq<string>, externalDirectories: seq<string>, externalClassNames: seq<string>)

  /** The nine built-in plugins enabled when no list is configured. */
  const DefaultEnabled: seq<string> := [
    "project-readme-generator", "entity-generator", "dto-generator", "repository-generator",
    "service-generator", "controller-generator", "test-generator", "migration-generator",
    "documentation-generator"]

  const DefaultDisabled: seq<string> := ["security-generator"]

  function DefaultPluginsConfig(): PluginsConfig {
    PluginsConfig(DefaultEnabled, DefaultDisabled, ["plugins"], [])
  }

  /** The PluginsConfig record constructor: each null list becomes its default list. */
  function NewPluginsConfig(
    enabled: Option<seq<string>>, disabled: Option<seq<string>>,
    externalDirectories: Option<seq<string>>, externalClassNames: Option<seq<string>>): PluginsConfig
  {
    PluginsConfig(enabled.GetOr(DefaultEnabled), disabled.GetOr(DefaultDisabled),
      externalDirectories.GetOr(["plugins"]), externalClassNames.GetOr([]))
  }

  /** PluginsConfig.isEnabled. */
  predicate IsEnabled(plugins: PluginsConfig, pluginName: string) {
    pluginName in plugins.enabled && pluginName !in plugins.disabled
  }

  /** The disabled list overrides the enabled list, and a name in neither list is off. */
  lemma DisabledOverridesEnabled(plugins: PluginsConfig, pluginName: string)
    ensures pluginName in plugins.disabled ==> !IsEnabled(plugins, pluginName)
    ensures pluginName !in plugins.enabled ==> !IsEnabled(plugins, pluginName)
    ensures pluginName in plugins.enabled && pluginName !in plugins.disabled ==> IsEnabled(plugins, pluginName)
  {
  }

  /** Under the default lists (also what null lists become) the security generator is off and
      the nine other built-ins are on. */
  lemma DefaultPluginSelection(enabled: Option<seq<string>>, disabled: Option<seq<string>>)
    requires enabled.None? && disabled.None?
    ensures var p := NewPluginsConfig(enabled, disabled, None, None);
            && p == DefaultPluginsConfig()
            && !IsEnabled(p, "security-generator")
            && (forall i :: 0 <= i < |DefaultEnabled| ==> IsEnabled(p, DefaultEnabled[i]))
  {
    var p := NewPluginsConfig(enabled, disabled, None, None);
    forall i | 0 <= i < |DefaultEnabled|
      ensures IsEnabled(p, DefaultEnabled[i])
    {
      assert DefaultEnabled[i] in p.enabled;
      assert DefaultEnabled[i] != "security-generator";
    }
  }

  datatype Config = Config(project: ProjectConfig, standards: StandardsConfig, features: FeaturesConfig, plugins: PluginsConfig)

  /** GenerationConfig.defaults(). */
  function DefaultConfig(): Config {
    Config(DefaultProjectConfig(), DefaultStandardsConfig(), DefaultFeaturesConfig(), DefaultPluginsConfig())
  }

  /** The GenerationConfig record constructor: each null part becomes its default. */
  function NewConfig(
    project: Option<ProjectConfig>, standards: Option<StandardsConfig>,
    features: Option<FeaturesConfig>, plugins: Option<PluginsConfig>): (c: Config)
    ensures project.None? ==> c.project == DefaultProjectConfig()
    ensures project.Some? ==> c.project == project.value
    ensures standards.None? ==> c.standards == DefaultStandardsConfig()
    ensures features.None? ==> c.features == DefaultFeaturesConfig()
    ensures plugins.None? ==> c.plugins == DefaultPluginsConfig()
  {
    Config(project.GetOr(DefaultProjectConfig()), standards.GetOr(DefaultStandardsConfig()),
      features.GetOr(DefaultFeaturesConfig()), plugins.GetOr(DefaultPluginsConfig()))
  }

  /** A configuration built only from nulls equals defaults(), also when each sub-record is
      itself built from nulls; and the default project configuration is normalized. */
  lemma NullConfigIsDefault()
    ensures NewConfig(None, None, None, None) == DefaultConfig()
    ensures NewProjectConfig(None, None, None, None, None) == DefaultProjectConfig()
    ensures NewStandardsConfig(None, None, None, None, None, None, None, None, None) == DefaultStandardsConfig()
    ensures NewPluginsConfig(None, None, None, None) == DefaultPluginsConfig()
    ensures DefaultProjectConfig().Normalized()
  {
    assert !IsWhitespace('g');
    assert !IsWhitespace('c');
    assert !IsWhitespace('3');
    assert !IsWhitespace('1');
    assert !IsWhitespace('s');
  }

  /** withTemplatePack: a copy of the configuration whose project record is rebuilt with the new
      pack name. */
  function WithTemplatePack(config: Config, templatePack: Option<string>): (c: Config)
    ensures c.standards == config.standards && c.features == config.features && c.plugins == config.plugins
    ensures c.project.templatePack == Normalize(templatePack, DefaultTemplatePack)
  {
    var p := config.project;
    var updated := NewProjectConfig(Some(p.name), Some(p.basePackage), Some(p.springBootVersion), Some(p.javaVersion), templatePack);
    NewConfig(Some(updated), Some(config.standards), Some(config.features), Some(config.plugins))
  }

  /** On a constructed configuration withTemplatePack changes the pack name and nothing else;
      a null or blank pack name gives the standard pack. */
  lemma WithTemplatePackChangesOnlyPack(config: Config, templatePack: Option<string>)
    requires config.project.Normalized()
    ensures var c := WithTemplatePack(config, templatePack);
            && c == config.(project := config.project.(templatePack := c.project.templatePack))
            && (templatePack.None? || IsBlank(templatePack.value) ==> c.project.templatePack == DefaultTemplatePack)
            && (templatePack.Some? && !IsBlank(templatePack.value) ==> c.project.templatePack == templatePack.value)
  {
  }
}
