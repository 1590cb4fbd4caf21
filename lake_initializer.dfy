/** `LakeInitializer`: creating a lake. The name is checked, the `Lake`
    message is built (display name and description defaulted, the prefix
    set only when given, the config defaulted to the empty one), an
    existing `lake.yaml` refuses the call, and any failure of the git and
    file setup that follows turns into one error. `lake.yaml` is rendered
    from a context that takes every block the lake's config leaves unset
    from fixed defaults. */
module LakeInitializer {
  import opened Text
  import opened JavaText
  import opened JavaPaths
  import opened Protos
  import opened InitCommon
  import LakeUtil
  import WorkspaceInitializer

  /** `validateLakeName`. */
  function ValidateLakeName(name: Option<string>): Result<string> {
    CheckName("Lake", name)
  }

  /** The lake `initializeLake` builds: `lakes/<name>`, the display name
      defaulting to the name, the description to empty, the prefix set only
      when given and not empty, both times the one reading of the clock,
      and the config the given one or the empty one. */
  function NewLake(name: string, displayName: Option<string>, description: Option<string>,
                   config: Option<LakeConfig>, lakePrefix: Option<string>, now: Timestamp): Lake
  {
    Lake(LakeUtil.ToResourceName(name), OrElse(displayName, name), OrElse(description, ""), OrElse(lakePrefix, ""),
         Some(now), Some(now), Some(if config.Some? then config.value else EmptyLakeConfig))
  }

  /** Where `initializeLake` looks for an existing lake. */
  function LakeYamlPath(lake: Lake, basePath: string): Path {
    ResolveString(LakeUtil.GetLocalPath(lake, basePath), "lake.yaml")
  }

  /** `initializeLake`. The git commands, the rendering of `lake.yaml`, the
      workspace files and the directory structure are outside the model:
      `setupFailure` is the message of the first exception they throw, if
      any, which turns into an `IOException` after the cleanup. */
  method InitializeLake(name: Option<string>, displayName: Option<string>, description: Option<string>,
                        config: Option<LakeConfig>, lakePrefix: Option<string>, now: Timestamp,
                        basePath: string, existing: set<Path>, setupFailure: Option<string>)
    returns (r: Result<Lake>)
    ensures ValidateLakeName(name).Err? ==> r == Err(ValidateLakeName(name).error)
    ensures ValidateLakeName(name).Ok? ==>
      var lake := NewLake(name.value, displayName, description, config, lakePrefix, now);
      (LakeYamlPath(lake, basePath) in existing ==>
         r == Err("Lake already initialized at: " + ToString(LakeUtil.GetLocalPath(lake, basePath)))) &&
      (LakeYamlPath(lake, basePath) !in existing && setupFailure.Some? ==>
         r == Err("Failed to initialize lake: " + setupFailure.value)) &&
      (LakeYamlPath(lake, basePath) !in existing && setupFailure.None? ==> r == Ok(lake))
  {
    var checked := ValidateLakeName(name);
    if checked.Err? {
      return Err(checked.error);
    }
    var lake := Lake(LakeUtil.ToResourceName(name.value), OrElse(displayName, name.value), OrElse(description, ""),
                     "", Some(now), Some(now), None);
    if lakePrefix.Some? && lakePrefix.value != "" {
      lake := lake.(lakePrefix := lakePrefix.value);
    }
    if config.Some? {
      lake := lake.(config := config);
    } else {
      lake := lake.(config := Some(EmptyLakeConfig));
    }
    var lakePath := LakeUtil.GetLocalPath(lake, basePath);
    if ResolveString(lakePath, "lake.yaml") in existing {
      return Err("Lake already initialized at: " + ToString(lakePath));
    }
    if setupFailure.Some? {
      return Err("Failed to initialize lake: " + setupFailure.value);
    }
    return Ok(lake);
  }

  /** A new lake's id is the name it was created with, and its config is
      the given one or the empty one. */
  lemma NewLakeIds(name: string, displayName: Option<string>, description: Option<string>,
                   config: Option<LakeConfig>, lakePrefix: Option<string>, now: Timestamp)
    ensures var lake := NewLake(name, displayName, description, config, lakePrefix, now);
      LakeUtil.ExtractLakeId(lake.name) == name &&
      LakeConfigOf(lake) == (if config.Some? then config.value else EmptyLakeConfig)
  {
    LakeUtil.ExtractLakeIdOfResourceName(name);
  }

  /** The template variables of `lake.yaml`, grouped by the block that puts them. */
  datatype HeaderVar = LakeId | DisplayName | Description | LakePrefix
  datatype ModuleVar = ProtobufVersion | GrpcVersion | RulesProtoGrpcVersion
  datatype JavaVar =
    | JavaEnabled | JavaGroupId | JavaSourceVersion | JavaTargetVersion
    | ProtobufJavaVersion | GrpcJavaVersion | JavaMultipleFiles | JavaOuterClassnameSuffix
  datatype PythonVar =
    | PythonEnabled | PythonPackagePrefix | PythonVersion | PythonProtobufVersion | PythonGrpcioVersion | PythonStubType
  datatype JavascriptVar =
    | JavascriptEnabled | JavascriptPackageScope | JavascriptNodeVersion | JavascriptProtobufVersion
    | JavascriptGrpcWebVersion | JavascriptUseTypescript | JavascriptModuleType
  datatype GoVar = GoEnabled | GoModulePrefix | GoVersion
  datatype Var =
    | Header(header: HeaderVar) | Module(module_: ModuleVar) | Java(java: JavaVar) | Python(python: PythonVar)
    | Javascript(javascript: JavascriptVar) | Go(go: GoVar) | BufConfigPath

  function VarName(v: Var): string {
    match v
    case Header(LakeId) => "lakeId"
    case Header(DisplayName) => "displayName"
    case Header(Description) => "description"
    case Header(LakePrefix) => "lakePrefix"
    case Module(ProtobufVersion) => "protobufVersion"
    case Module(GrpcVersion) => "grpcVersion"
    case Module(RulesProtoGrpcVersion) => "rulesProtoGrpcVersion"
    case Java(JavaEnabled) => "javaEnabled"
    case Java(JavaGroupId) => "javaGroupId"
    case Java(JavaSourceVersion) => "javaSourceVersion"
    case Java(JavaTargetVersion) => "javaTargetVersion"
    case Java(ProtobufJavaVersion) => "protobufJavaVersion"
    case Java(GrpcJavaVersion) => "grpcJavaVersion"
    case Java(JavaMultipleFiles) => "javaMultipleFiles"
    case Java(JavaOuterClassnameSuffix) => "javaOuterClassnameSuffix"
    case Python(PythonEnabled) => "pythonEnabled"
    case Python(PythonPackagePrefix) => "pythonPackagePrefix"
    case Python(PythonVersion) => "pythonVersion"
    case Python(PythonProtobufVersion) => "pythonProtobufVersion"
    case Python(PythonGrpcioVersion) => "pythonGrpcioVersion"
    case Python(PythonStubType) => "pythonStubType"
    case Javascript(JavascriptEnabled) => "javascriptEnabled"
    case Javascript(JavascriptPackageScope) => "javascriptPackageScope"
    case Javascript(JavascriptNodeVersion) => "javascriptNodeVersion"
    case Javascript(JavascriptProtobufVersion) => "javascriptProtobufVersion"
    case Javascript(JavascriptGrpcWebVersion) => "javascriptGrpcWebVersion"
    case Javascript(JavascriptUseTypescript) => "javascriptUseTypescript"
    case Javascript(JavascriptModuleType) => "javascriptModuleType"
    case Go(GoEnabled) => "goEnabled"
    case Go(GoModulePrefix) => "goModulePrefix"
    case Go(GoVersion) => "goVersion"
    case BufConfigPath => "bufConfigPath"
  }

  /** The values `generateLakeYaml` and its `setDefault*Config` helpers put
      for a block the config leaves unset (the Java artifact id and the
      Python and JavaScript package names are not read for `lake.yaml`). */
  const DefaultModuleBazel := ModuleBazel("31.1", "1.64.0", "5.3.1")
  const DefaultJava := JavaConfig(true, "com.example.proto", "", "21", "21", "4.31.1", "1.78.0", true, "Proto")
  const DefaultPython := PythonConfig(true, "", "example_proto", ">=3.8,<4.0", "5.27.0", "1.78.0", "pyi")
  const DefaultJavascript := JavaScriptConfig(true, "", "@example", ">=18", "3.21.2", "1.5.0", true, "commonjs")
  const DefaultGo := GoConfig(false, "github.com/example/proto", "1.25")
  const DefaultBufConfigPath := "./buf.yaml"

  /** Each block as `lake.yaml` sees it: the configured message when there
      is one, its fields taken as they are, else the defaults. */
  function ModuleOf(config: LakeConfig): ModuleBazel {
    if config.moduleBazel.Some? then config.moduleBazel.value else DefaultModuleBazel
  }

  function JavaOf(defaults: Option<Languages>): JavaConfig {
    if defaults.Some? && defaults.value.java.Some? then defaults.value.java.value else DefaultJava
  }

  function PythonOf(defaults: Option<Languages>): PythonConfig {
    if defaults.Some? && defaults.value.python.Some? then defaults.value.python.value else DefaultPython
  }

  function JavascriptOf(defaults: Option<Languages>): JavaScriptConfig {
    if defaults.Some? && defaults.value.javascript.Some? then defaults.value.javascript.value else DefaultJavascript
  }

  function GoOf(defaults: Option<Languages>): GoConfig {
    if defaults.Some? && defaults.value.go.Some? then defaults.value.go.value else DefaultGo
  }

  function BufConfigPathOf(config: LakeConfig): string {
    if config.validation.Some? then config.validation.value.bufConfigPath else DefaultBufConfigPath
  }

  /** Each variable names one field of its block's message. */
  function ModuleValue(m: ModuleBazel, v: ModuleVar): Value {
    match v
    case ProtobufVersion => Str(m.protobufVersion)
    case GrpcVersion => Str(m.grpcVersion)
    case RulesProtoGrpcVersion => Str(m.rulesProtoGrpcVersion)
  }

  function JavaValue(java: JavaConfig, v: JavaVar): Value {
    match v
    case JavaEnabled => Flag(java.enabled)
    case JavaGroupId => Str(java.groupId)
    case JavaSourceVersion => Str(java.sourceVersion)
    case JavaTargetVersion => Str(java.targetVersion)
    case ProtobufJavaVersion => Str(java.protobufJavaVersion)
    case GrpcJavaVersion => Str(java.grpcJavaVersion)
    case JavaMultipleFiles => Flag(java.javaMultipleFiles)
    case JavaOuterClassnameSuffix => Str(java.javaOuterClassnameSuffix)
  }

  function PythonValue(python: PythonConfig, v: PythonVar): Value {
    match v
    case PythonEnabled => Flag(python.enabled)
    case PythonPackagePrefix => Str(python.packagePrefix)
    case PythonVersion => Str(python.pythonVersion)
    case PythonProtobufVersion => Str(python.protobufVersion)
    case PythonGrpcioVersion => Str(python.grpcioVersion)
    case PythonStubType => Str(python.stubType)
  }

  function JavascriptValue(js: JavaScriptConfig, v: JavascriptVar): Value {
    match v
    case JavascriptEnabled => Flag(js.enabled)
    case JavascriptPackageScope => Str(js.packageScope)
    case JavascriptNodeVersion => Str(js.nodeVersion)
    case JavascriptProtobufVersion => Str(js.googleProtobufVersion)
    case JavascriptGrpcWebVersion => Str(js.grpcWebVersion)
    case JavascriptUseTypescript => Flag(js.useTypescript)
    case JavascriptModuleType => Str(js.moduleType)
  }

  function GoValue(go: GoConfig, v: GoVar): Value {
    match v
    case GoEnabled => Flag(go.enabled)
    case GoModulePrefix => Str(go.modulePrefix)
    case GoVersion => Str(go.goVersion)
  }

  /** What every `lake.yaml` variable stands for, for a given lake. */
  function YamlValue(lake: Lake, v: Var): Value {
    var config := LakeConfigOf(lake);
    match v
    case Header(LakeId) => Str(LakeUtil.ExtractLakeId(lake.name))
    case Header(DisplayName) => Str(lake.displayName)
    case Header(Description) => Str(lake.description)
    case Header(LakePrefix) => Str(lake.lakePrefix)
    case Module(m) => ModuleValue(ModuleOf(config), m)
    case Java(j) => JavaValue(JavaOf(config.languageDefaults), j)
    case Python(p) => PythonValue(PythonOf(config.languageDefaults), p)
    case Javascript(s) => JavascriptValue(JavascriptOf(config.languageDefaults), s)
    case Go(g) => GoValue(GoOf(config.languageDefaults), g)
    case BufConfigPath => Str(BufConfigPathOf(config))
  }

  /** A context whose every variable holds the lake's value for it. */
  predicate Describes(context: Context<Var>, lake: Lake) {
    forall v :: v in context ==> context[v] == YamlValue(lake, v)
  }

  /** Two contexts that describe the lake describe it together. */
  lemma DescribesUnion(a: Context<Var>, b: Context<Var>, lake: Lake)
    requires Describes(a, lake) && Describes(b, lake)
    ensures Describes(a + b, lake)
  {
  }

  /** The puts of one block of `generateLakeYaml` (and of the matching
      `setDefault*Config` when given the defaults). */
  function ModuleEntries(m: ModuleBazel): Context<Var> {
    map[Module(ProtobufVersion) := Str(m.protobufVersion), Module(GrpcVersion) := Str(m.grpcVersion),
        Module(RulesProtoGrpcVersion) := Str(m.rulesProtoGrpcVersion)]
  }

  function JavaEntries(java: JavaConfig): Context<Var> {
    map[Java(JavaEnabled) := Flag(java.enabled), Java(JavaGroupId) := Str(java.groupId),
        Java(JavaSourceVersion) := Str(java.sourceVersion), Java(JavaTargetVersion) := Str(java.targetVersion),
        Java(ProtobufJavaVersion) := Str(java.protobufJavaVersion), Java(GrpcJavaVersion) := Str(java.grpcJavaVersion),
        Java(JavaMultipleFiles) := Flag(java.javaMultipleFiles),
        Java(JavaOuterClassnameSuffix) := Str(java.javaOuterClassnameSuffix)]
  }

  function PythonEntries(python: PythonConfig): Context<Var> {
    map[Python(PythonEnabled) := Flag(python.enabled), Python(PythonPackagePrefix) := Str(python.packagePrefix),
        Python(PythonVersion) := Str(python.pythonVersion), Python(PythonProtobufVersion) := Str(python.protobufVersion),
        Python(PythonGrpcioVersion) := Str(python.grpcioVersion), Python(PythonStubType) := Str(python.stubType)]
  }

  function JavascriptEntries(js: JavaScriptConfig): Context<Var> {
    map[Javascript(JavascriptEnabled) := Flag(js.enabled), Javascript(JavascriptPackageScope) := Str(js.packageScope),
        Javascript(JavascriptNodeVersion) := Str(js.nodeVersion),
        Javascript(JavascriptProtobufVersion) := Str(js.googleProtobufVersion),
        Javascript(JavascriptGrpcWebVersion) := Str(js.grpcWebVersion),
        Javascript(JavascriptUseTypescript) := Flag(js.useTypescript),
        Javascript(JavascriptModuleType) := Str(js.moduleType)]
  }

  function GoEntries(go: GoConfig): Context<Var> {
    map[Go(GoEnabled) := Flag(go.enabled), Go(GoModulePrefix) := Str(go.modulePrefix), Go(GoVersion) := Str(go.goVersion)]
  }

  function HeaderEntries(lake: Lake): Context<Var> {
    map[Header(LakeId) := Str(LakeUtil.ExtractLakeId(lake.name)), Header(DisplayName) := Str(lake.displayName),
        Header(Description) := Str(lake.description), Header(LakePrefix) := Str(lake.lakePrefix)]
  }

  /** The language blocks, each from the configured message or the defaults. */
  method LanguageEntries(defaults: Option<Languages>) returns (entries: Context<Var>)
    ensures entries == JavaEntries(JavaOf(defaults)) + PythonEntries(PythonOf(defaults)) +
                       JavascriptEntries(JavascriptOf(defaults)) + GoEntries(GoOf(defaults))
  {
    if defaults.Some? {
      var languages := defaults.value;
      if languages.java.Some? {
        entries := JavaEntries(languages.java.value);
      } else {
        entries := JavaEntries(DefaultJava);
      }
      if languages.python.Some? {
        entries := entries + PythonEntries(languages.python.value);
      } else {
        entries := entries + PythonEntries(DefaultPython);
      }
      if languages.javascript.Some? {
        entries := entries + JavascriptEntries(languages.javascript.value);
      } else {
        entries := entries + JavascriptEntries(DefaultJavascript);
      }
      if languages.go.Some? {
        entries := entries + GoEntries(languages.go.value);
      } else {
        entries := entries + GoEntries(DefaultGo);
      }
    } else {
      entries := JavaEntries(DefaultJava) + PythonEntries(DefaultPython) +
                 JavascriptEntries(DefaultJavascript) + GoEntries(DefaultGo);
    }
  }

  /** Each block sets exactly its own variables, each to the field it names. */
  lemma HeaderBlock(lake: Lake)
    ensures var e := HeaderEntries(lake);
      (forall v :: v in e <==> v.Header?) && Describes(e, lake)
  {
    var e := HeaderEntries(lake);
    forall v ensures v in e <==> v.Header? {
      if v.Header? {
        match v.header
        case LakeId =>
        case DisplayName =>
        case Description =>
        case LakePrefix =>
      }
    }
  }

  lemma ModuleBlock(lake: Lake)
    ensures var e := ModuleEntries(ModuleOf(LakeConfigOf(lake)));
      (forall v :: v in e <==> v.Module?) && Describes(e, lake)
  {
    var e := ModuleEntries(ModuleOf(LakeConfigOf(lake)));
    forall v ensures v in e <==> v.Module? {
      if v.Module? {
        match v.module_
        case ProtobufVersion =>
        case GrpcVersion =>
        case RulesProtoGrpcVersion =>
      }
    }
  }

  lemma JavaBlock(lake: Lake)
    ensures var e := JavaEntries(JavaOf(LakeConfigOf(lake).languageDefaults));
      (forall v :: v in e <==> v.Java?) && Describes(e, lake)
  {
    var e := JavaEntries(JavaOf(LakeConfigOf(lake).languageDefaults));
    forall v ensures v in e <==> v.Java? {
      if v.Java? {
        match v.java
        case JavaEnabled =>
        case JavaGroupId =>
        case JavaSourceVersion =>
        case JavaTargetVersion =>
        case ProtobufJavaVersion =>
        case GrpcJavaVersion =>
        case JavaMultipleFiles =>
        case JavaOuterClassnameSuffix =>
      }
    }
  }

  lemma PythonBlock(lake: Lake)
    ensures var e := PythonEntries(PythonOf(LakeConfigOf(lake).languageDefaults));
      (forall v :: v in e <==> v.Python?) && Describes(e, lake)
  {
    var e := PythonEntries(PythonOf(LakeConfigOf(lake).languageDefaults));
    forall v ensures v in e <==> v.Python? {
      if v.Python? {
        match v.python
        case PythonEnabled =>
        case PythonPackagePrefix =>
        case PythonVersion =>
        case PythonProtobufVersion =>
        case PythonGrpcioVersion =>
        case PythonStubType =>
      }
    }
  }

  lemma JavascriptBlock(lake: Lake)
    ensures var e := JavascriptEntries(JavascriptOf(LakeConfigOf(lake).languageDefaults));
      (forall v :: v in e <==> v.Javascript?) && Describes(e, lake)
  {
    var e := JavascriptEntries(JavascriptOf(LakeConfigOf(lake).languageDefaults));
    forall v ensures v in e <==> v.Javascript? {
      if v.Javascript? {
        match v.javascript
        case JavascriptEnabled =>
        case JavascriptPackageScope =>
        case JavascriptNodeVersion =>
        case JavascriptProtobufVersion =>
        case JavascriptGrpcWebVersion =>
        case JavascriptUseTypescript =>
        case JavascriptModuleType =>
      }
    }
  }

  lemma GoBlock(lake: Lake)
    ensures var e := GoEntries(GoOf(LakeConfigOf(lake).languageDefaults));
      (forall v :: v in e <==> v.Go?) && Describes(e, lake)
  {
    var e := GoEntries(GoOf(LakeConfigOf(lake).languageDefaults));
    forall v ensures v in e <==> v.Go? {
      if v.Go? {
        match v.go
        case GoEnabled =>
        case GoModulePrefix =>
        case GoVersion =>
      }
    }
  }

  /** The language blocks together set exactly the language variables. */
  lemma LanguagesDescribe(lake: Lake)
    ensures var d := LakeConfigOf(lake).languageDefaults;
      var entries := JavaEntries(JavaOf(d)) + PythonEntries(PythonOf(d)) + JavascriptEntries(JavascriptOf(d)) + GoEntries(GoOf(d));
      (forall v :: v in entries <==> v.Java? || v.Python? || v.Javascript? || v.Go?) && Describes(entries, lake)
  {
    var d := LakeConfigOf(lake).languageDefaults;
    var java, python, js, go := JavaEntries(JavaOf(d)), PythonEntries(PythonOf(d)), JavascriptEntries(JavascriptOf(d)), GoEntries(GoOf(d));
    JavaBlock(lake);
    PythonBlock(lake);
    JavascriptBlock(lake);
    GoBlock(lake);
    DescribesUnion(java, python, lake);
    DescribesUnion(java + python, js, lake);
    DescribesUnion(java + python + js, go, lake);
  }

  /** `generateLakeYaml`'s context: the lake's own fields, then every
      block from the config when it sets that block and from the defaults
      when it does not, then the Buf config path. Every variable of the
      template is set. */
  method GenerateLakeYaml(lake: Lake) returns (context: Context<Var>)
    ensures forall v :: v in context
    ensures Describes(context, lake)
  {
    var header := HeaderEntries(lake);
    var config := LakeConfigOf(lake);
    var moduleEntries;
    if config.moduleBazel.Some? {
      moduleEntries := ModuleEntries(config.moduleBazel.value);
    } else {
      moduleEntries := ModuleEntries(DefaultModuleBazel);
    }
    var languages := LanguageEntries(config.languageDefaults);
    var bufConfigPath;
    if config.validation.Some? {
      bufConfigPath := config.validation.value.bufConfigPath;
    } else {
      bufConfigPath := DefaultBufConfigPath;
    }
    var buf := map[BufConfigPath := Str(bufConfigPath)];
    HeaderBlock(lake);
    ModuleBlock(lake);
    LanguagesDescribe(lake);
    DescribesUnion(header, moduleEntries, lake);
    DescribesUnion(header + moduleEntries, languages, lake);
    DescribesUnion(header + moduleEntries + languages, buf, lake);
    context := header + moduleEntries + languages + buf;
  }

  /** A lake without a config, or with the empty one, gets every default:
      the pinned module versions, Java, Python and JavaScript on, Go off,
      and `./buf.yaml`. */
  lemma LakeYamlDefaults(lake: Lake)
    requires LakeConfigOf(lake) == EmptyLakeConfig
    ensures YamlValue(lake, Module(ProtobufVersion)) == Str("31.1") && YamlValue(lake, Module(GrpcVersion)) == Str("1.64.0")
    ensures YamlValue(lake, Java(JavaEnabled)) == Flag(true) && YamlValue(lake, Java(JavaGroupId)) == Str("com.example.proto")
    ensures YamlValue(lake, Python(PythonEnabled)) == Flag(true) && YamlValue(lake, Javascript(JavascriptEnabled)) == Flag(true)
    ensures YamlValue(lake, Go(GoEnabled)) == Flag(false)
    ensures YamlValue(lake, BufConfigPath) == Str("./buf.yaml")
  {
  }

  /** A configured language block is taken whole: each of its fields
      reaches `lake.yaml` as set, an empty one included, and no default is
      mixed in. */
  lemma ConfiguredJavaKept(lake: Lake)
    requires LakeConfigOf(lake).languageDefaults.Some? && LakeConfigOf(lake).languageDefaults.value.java.Some?
    ensures var java := LakeConfigOf(lake).languageDefaults.value.java.value;
      YamlValue(lake, Java(JavaEnabled)) == Flag(java.enabled) && YamlValue(lake, Java(JavaGroupId)) == Str(java.groupId) &&
      YamlValue(lake, Java(ProtobufJavaVersion)) == Str(java.protobufJavaVersion)
  {
  }

  /** `lake.yaml` and the workspace's `MODULE.bazel` agree on the
      protobuf, gRPC and rules_proto_grpc versions, configured or not. */
  lemma ModuleVersionsAgree(lake: Lake)
    ensures YamlValue(lake, Module(ProtobufVersion)) == WorkspaceInitializer.TemplateValue(lake, WorkspaceInitializer.ProtobufVersion)
    ensures YamlValue(lake, Module(GrpcVersion)) == WorkspaceInitializer.TemplateValue(lake, WorkspaceInitializer.GrpcVersion)
    ensures YamlValue(lake, Module(RulesProtoGrpcVersion)) ==
      WorkspaceInitializer.TemplateValue(lake, WorkspaceInitializer.RulesProtoGrpcVersion)
  {
  }

  /** By default they name different Java versions: `lake.yaml` protobuf-java
      4.31.1 and grpc-java 1.78.0, `MODULE.bazel` 4.28.3 and 1.68.1. */
  lemma JavaDefaultsDiffer(lake: Lake)
    requires LakeConfigOf(lake) == EmptyLakeConfig
    ensures YamlValue(lake, Java(ProtobufJavaVersion)) != WorkspaceInitializer.TemplateValue(lake, WorkspaceInitializer.ProtobufJavaVersion)
    ensures YamlValue(lake, Java(GrpcJavaVersion)) != WorkspaceInitializer.TemplateValue(lake, WorkspaceInitializer.GrpcJavaVersion)
  {
  }
}
