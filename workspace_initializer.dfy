/** `WorkspaceInitializer`: the template contexts behind a new lake's Bazel
    workspace. `MODULE.bazel` and the root `BUILD.bazel` are rendered from
    the lake's versions with defaults filled in, `MODULE.bazel` also
    learns where protolake-gazelle comes from (a git repository or a local
    path, chosen from the environment), and the two Buf files get the lint
    and breaking-change rule lists. */
module WorkspaceInitializer {
  import opened Text
  import opened Protos
  import opened InitCommon
  import LakeUtil

  /** The template variables of the workspace templates. */
  datatype Var =
    | LakeName | Organization | ProtobufVersion | GrpcVersion | RulesProtoGrpcVersion
    | ProtobufJavaVersion | GrpcJavaVersion | RulesJavaVersion | RulesPythonVersion
    | GazelleGitUrl | GazelleGitCommit | GazellePath
    | BufBreakingUse | BufLintUse | BufLintExcept

  function VarName(v: Var): string {
    match v
    case LakeName => "lakeName"
    case Organization => "organization"
    case ProtobufVersion => "protobuf_version"
    case GrpcVersion => "grpc_version"
    case RulesProtoGrpcVersion => "rules_proto_grpc_version"
    case ProtobufJavaVersion => "protobuf_java_version"
    case GrpcJavaVersion => "grpc_java_version"
    case RulesJavaVersion => "rules_java_version"
    case RulesPythonVersion => "rules_python_version"
    case GazelleGitUrl => "protolake_gazelle_git_url"
    case GazelleGitCommit => "protolake_gazelle_git_commit"
    case GazellePath => "protolake_gazelle_path"
    case BufBreakingUse => "buf_breaking_use"
    case BufLintUse => "buf_lint_use"
    case BufLintExcept => "buf_lint_except"
  }

  /** The variables `buildTemplateContext` always fills. */
  const TemplateVars := {LakeName, Organization, ProtobufVersion, GrpcVersion, RulesProtoGrpcVersion,
                         ProtobufJavaVersion, GrpcJavaVersion, RulesJavaVersion, RulesPythonVersion}

  /** The versions `MODULE.bazel` falls back to without a `module_bazel` config. */
  const DefaultModuleVersions := ModuleBazel("31.1", "1.64.0", "5.3.1")

  /** The defaults `buildTemplateContext` puts where nothing is set. */
  const DefaultOrganization := "com.example"
  const DefaultProtobufJavaVersion := "4.28.3"
  const DefaultGrpcJavaVersion := "1.68.1"
  const DefaultRulesJavaVersion := "8.13.0"
  const DefaultRulesPythonVersion := "1.5.1"

  /** The lake's `module_bazel` versions, or the defaults. */
  function ModuleVersions(lake: Lake): ModuleBazel {
    var config := LakeConfigOf(lake);
    if config.moduleBazel.Some? then config.moduleBazel.value else DefaultModuleVersions
  }

  /** What each of `buildTemplateContext`'s variables holds for a lake:
      the configured versions when the lake has a `module_bazel` block (the
      gRPC Java version then follows the gRPC version), the defaults
      otherwise, and fixed versions for the rest. */
  function TemplateValue(lake: Lake, v: Var): Value
    requires v in TemplateVars
  {
    var config := LakeConfigOf(lake);
    match v
    case LakeName => Str(LakeUtil.ExtractLakeId(lake.name))
    case Organization => Str(config.organization)
    case ProtobufVersion => Str(ModuleVersions(lake).protobufVersion)
    case GrpcVersion => Str(ModuleVersions(lake).grpcVersion)
    case RulesProtoGrpcVersion => Str(ModuleVersions(lake).rulesProtoGrpcVersion)
    case ProtobufJavaVersion => Str(DefaultProtobufJavaVersion)
    case GrpcJavaVersion => Str(if config.moduleBazel.Some? then config.moduleBazel.value.grpcVersion else DefaultGrpcJavaVersion)
    case RulesJavaVersion => Str(DefaultRulesJavaVersion)
    case RulesPythonVersion => Str(DefaultRulesPythonVersion)
  }

  /** A context whose every `buildTemplateContext` variable holds the lake's value for it. */
  predicate Describes(context: Context<Var>, lake: Lake) {
    forall v :: v in context && v in TemplateVars ==> context[v] == TemplateValue(lake, v)
  }

  /** `buildTemplateContext`'s defaults, each put only where nothing is set. */
  function FillDefaults(context: Context<Var>): Context<Var> {
    var c1 := PutIfAbsent(context, Organization, Str(DefaultOrganization));
    var c2 := PutIfAbsent(c1, ProtobufVersion, Str(DefaultModuleVersions.protobufVersion));
    var c3 := PutIfAbsent(c2, GrpcVersion, Str(DefaultModuleVersions.grpcVersion));
    var c4 := PutIfAbsent(c3, RulesProtoGrpcVersion, Str(DefaultModuleVersions.rulesProtoGrpcVersion));
    var c5 := PutIfAbsent(c4, ProtobufJavaVersion, Str(DefaultProtobufJavaVersion));
    var c6 := PutIfAbsent(c5, GrpcJavaVersion, Str(DefaultGrpcJavaVersion));
    var c7 := PutIfAbsent(c6, RulesJavaVersion, Str(DefaultRulesJavaVersion));
    PutIfAbsent(c7, RulesPythonVersion, Str(DefaultRulesPythonVersion))
  }

  /** Without a `module_bazel` block, the defaults fill every version. */
  lemma FilledWithoutModule(lake: Lake)
    requires LakeConfigOf(lake).moduleBazel.None?
    ensures var puts := map[LakeName := Str(LakeUtil.ExtractLakeId(lake.name)),
                            Organization := Str(LakeConfigOf(lake).organization)];
      FillDefaults(puts).Keys == TemplateVars && Describes(FillDefaults(puts), lake)
  {
    var puts := map[LakeName := Str(LakeUtil.ExtractLakeId(lake.name)),
                    Organization := Str(LakeConfigOf(lake).organization)];
    var filled := FillDefaults(puts);
    forall v | v in filled && v in TemplateVars ensures filled[v] == TemplateValue(lake, v) {
      match v
      case LakeName =>
      case Organization =>
      case ProtobufVersion =>
      case GrpcVersion =>
      case RulesProtoGrpcVersion =>
      case ProtobufJavaVersion =>
      case GrpcJavaVersion =>
      case RulesJavaVersion =>
      case RulesPythonVersion =>
    }
  }

  /** With a `module_bazel` block, the defaults fill only the versions it
      does not set. */
  lemma FilledWithModule(lake: Lake)
    requires LakeConfigOf(lake).moduleBazel.Some?
    ensures var m := LakeConfigOf(lake).moduleBazel.value;
      var puts := map[LakeName := Str(LakeUtil.ExtractLakeId(lake.name)),
                      Organization := Str(LakeConfigOf(lake).organization)]
                     [ProtobufVersion := Str(m.protobufVersion)][GrpcVersion := Str(m.grpcVersion)]
                     [RulesProtoGrpcVersion := Str(m.rulesProtoGrpcVersion)][GrpcJavaVersion := Str(m.grpcVersion)];
      FillDefaults(puts).Keys == TemplateVars && Describes(FillDefaults(puts), lake)
  {
    var m := LakeConfigOf(lake).moduleBazel.value;
    var puts := map[LakeName := Str(LakeUtil.ExtractLakeId(lake.name)),
                    Organization := Str(LakeConfigOf(lake).organization)]
                   [ProtobufVersion := Str(m.protobufVersion)][GrpcVersion := Str(m.grpcVersion)]
                   [RulesProtoGrpcVersion := Str(m.rulesProtoGrpcVersion)][GrpcJavaVersion := Str(m.grpcVersion)];
    var filled := FillDefaults(puts);
    forall v | v in filled && v in TemplateVars ensures filled[v] == TemplateValue(lake, v) {
      match v
      case LakeName =>
      case Organization =>
      case ProtobufVersion =>
      case GrpcVersion =>
      case RulesProtoGrpcVersion =>
      case ProtobufJavaVersion =>
      case GrpcJavaVersion =>
      case RulesJavaVersion =>
      case RulesPythonVersion =>
    }
  }

  /** `buildTemplateContext`: the lake's values put first, then every
      default put only where nothing is set. The config is never null (an
      unset config reads as the default instance), so the organization is
      always put, and the `com.example` default never applies. */
  method BuildTemplateContext(lake: Lake) returns (context: Context<Var>)
    ensures context.Keys == TemplateVars
    ensures Describes(context, lake)
  {
    context := map[LakeName := Str(LakeUtil.ExtractLakeId(lake.name))];
    var config := LakeConfigOf(lake);
    context := context[Organization := Str(config.organization)];
    if config.moduleBazel.Some? {
      var moduleBazel := config.moduleBazel.value;
      context := context[ProtobufVersion := Str(moduleBazel.protobufVersion)];
      context := context[GrpcVersion := Str(moduleBazel.grpcVersion)];
      context := context[RulesProtoGrpcVersion := Str(moduleBazel.rulesProtoGrpcVersion)];
      context := context[GrpcJavaVersion := Str(moduleBazel.grpcVersion)];
      FilledWithModule(lake);
    } else {
      FilledWithoutModule(lake);
    }
    ghost var puts := context;
    context := PutIfAbsent(context, Organization, Str(DefaultOrganization));
    context := PutIfAbsent(context, ProtobufVersion, Str(DefaultModuleVersions.protobufVersion));
    context := PutIfAbsent(context, GrpcVersion, Str(DefaultModuleVersions.grpcVersion));
    context := PutIfAbsent(context, RulesProtoGrpcVersion, Str(DefaultModuleVersions.rulesProtoGrpcVersion));
    context := PutIfAbsent(context, ProtobufJavaVersion, Str(DefaultProtobufJavaVersion));
    context := PutIfAbsent(context, GrpcJavaVersion, Str(DefaultGrpcJavaVersion));
    context := PutIfAbsent(context, RulesJavaVersion, Str(DefaultRulesJavaVersion));
    context := PutIfAbsent(context, RulesPythonVersion, Str(DefaultRulesPythonVersion));
    assert context == FillDefaults(puts);
  }

  /** Where protolake-gazelle comes from. */
  datatype GazelleSource = GitRepository(url: string, commit: string) | LocalPath(path: string)

  const GitUrlEnv := "PROTOLAKE_GAZELLE_GIT_URL"
  const GitCommitEnv := "PROTOLAKE_GAZELLE_GIT_COMMIT"
  const SourcePathEnv := "PROTOLAKE_GAZELLE_SOURCE_PATH"
  const DefaultGazellePath := "../../../protolake-gazelle"

  /** `System.getenv`: the variable's value, or null when it is not set. */
  function Getenv(env: map<string, string>, name: string): Option<string> {
    if name in env then Some(env[name]) else None
  }

  /** A variable that is set to something other than the empty text. */
  predicate IsSet(env: map<string, string>, name: string) {
    name in env && env[name] != ""
  }

  /** The git repository when both its URL and its commit are set, else
      the local path from the environment, else the default relative path. */
  function GazelleSourceOf(env: map<string, string>): (source: GazelleSource)
    ensures source.GitRepository? <==> IsSet(env, GitUrlEnv) && IsSet(env, GitCommitEnv)
    ensures source.GitRepository? ==> source.url == env[GitUrlEnv] && source.commit == env[GitCommitEnv]
    ensures source.LocalPath? && IsSet(env, SourcePathEnv) ==> source.path == env[SourcePathEnv]
    ensures source.LocalPath? && !IsSet(env, SourcePathEnv) ==> source.path == DefaultGazellePath
    ensures source.LocalPath? ==> source.path != ""
  {
    if IsSet(env, GitUrlEnv) && IsSet(env, GitCommitEnv) then GitRepository(env[GitUrlEnv], env[GitCommitEnv])
    else if IsSet(env, SourcePathEnv) then LocalPath(env[SourcePathEnv])
    else LocalPath(DefaultGazellePath)
  }

  /** `createModuleBazel`'s context: `buildTemplateContext` plus the two git
      variables, or the one path variable, of the chosen gazelle source. */
  method ModuleBazelContext(lake: Lake, env: map<string, string>) returns (context: Context<Var>)
    ensures Describes(context, lake)
    ensures match GazelleSourceOf(env)
      case GitRepository(url, commit) =>
        context.Keys == TemplateVars + {GazelleGitUrl, GazelleGitCommit} &&
        context[GazelleGitUrl] == Str(url) && context[GazelleGitCommit] == Str(commit)
      case LocalPath(path) =>
        context.Keys == TemplateVars + {GazellePath} && context[GazellePath] == Str(path)
  {
    context := BuildTemplateContext(lake);
    var gitUrl := Getenv(env, GitUrlEnv);
    var gitCommit := Getenv(env, GitCommitEnv);
    if gitUrl.Some? && gitUrl.value != "" && gitCommit.Some? && gitCommit.value != "" {
      context := context[GazelleGitUrl := Str(gitUrl.value)];
      context := context[GazelleGitCommit := Str(gitCommit.value)];
    } else {
      var sourcePath := Getenv(env, SourcePathEnv);
      if sourcePath.Some? && sourcePath.value != "" {
        context := context[GazellePath := Str(sourcePath.value)];
      } else {
        context := context[GazellePath := Str(DefaultGazellePath)];
      }
    }
  }

  /** `createBufConfiguration`'s context: `buildTemplateContext` plus the
      fixed rule lists; a `validation` block in the config changes nothing. */
  method BufContext(lake: Lake) returns (context: Context<Var>)
    ensures context.Keys == TemplateVars + {BufBreakingUse, BufLintUse, BufLintExcept}
    ensures Describes(context, lake)
    ensures context[BufBreakingUse] == Strs(["FILE"])
    ensures context[BufLintUse] == Strs(["DEFAULT"])
    ensures context[BufLintExcept] == Strs(["PACKAGE_VERSION_SUFFIX"])
  {
    context := BuildTemplateContext(lake);
    context := context[BufBreakingUse := Strs(["FILE"])];
    context := context[BufLintUse := Strs(["DEFAULT"])];
    context := context[BufLintExcept := Strs(["PACKAGE_VERSION_SUFFIX"])];
  }

  /** With a `module_bazel` block every one of its versions reaches the
      template, even an empty one, and the gRPC Java version is the gRPC
      version; without one the defaults do. */
  lemma ModuleVersionsChosen(lake: Lake)
    ensures var config := LakeConfigOf(lake);
      config.moduleBazel.Some? ==>
        TemplateValue(lake, ProtobufVersion) == Str(config.moduleBazel.value.protobufVersion) &&
        TemplateValue(lake, GrpcJavaVersion) == TemplateValue(lake, GrpcVersion)
    ensures var config := LakeConfigOf(lake);
      config.moduleBazel.None? ==>
        TemplateValue(lake, ProtobufVersion) == Str(DefaultModuleVersions.protobufVersion) && TemplateValue(lake, GrpcVersion) == Str(DefaultModuleVersions.grpcVersion) &&
        TemplateValue(lake, GrpcJavaVersion) == Str(DefaultGrpcJavaVersion)
  {
  }
}
