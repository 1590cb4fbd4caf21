/** The protolake.v1 messages the services read and build. Message-typed
    fields carry presence (`hasX()`), so they are `Option`s; string,
    bool and number fields default to `""`, `false` and `0` as in proto3. */
module Protos {
  import opened Text

  /** `google.protobuf.Timestamp`. */
  datatype Timestamp = Timestamp(seconds: int, nanos: int)

  datatype ModuleBazel = ModuleBazel(protobufVersion: string, grpcVersion: string, rulesProtoGrpcVersion: string)

  datatype JavaConfig = JavaConfig(
    enabled: bool, groupId: string, artifactId: string,
    sourceVersion: string, targetVersion: string,
    protobufJavaVersion: string, grpcJavaVersion: string,
    javaMultipleFiles: bool, javaOuterClassnameSuffix: string)

  datatype PythonConfig = PythonConfig(
    enabled: bool, packageName: string, packagePrefix: string,
    pythonVersion: string, protobufVersion: string, grpcioVersion: string, stubType: string)

  datatype JavaScriptConfig = JavaScriptConfig(
    enabled: bool, packageName: string, packageScope: string, nodeVersion: string,
    googleProtobufVersion: string, grpcWebVersion: string, useTypescript: bool, moduleType: string)

  datatype GoConfig = GoConfig(enabled: bool, modulePrefix: string, goVersion: string)

  /** Per-language settings: a bundle's `languages` and a lake's `language_defaults`. */
  datatype Languages = Languages(
    java: Option<JavaConfig>, python: Option<PythonConfig>,
    javascript: Option<JavaScriptConfig>, go: Option<GoConfig>)

  datatype LakeValidationConfig = LakeValidationConfig(bufConfigPath: string)

  datatype LakeConfig = LakeConfig(
    organization: string, moduleBazel: Option<ModuleBazel>,
    languageDefaults: Option<Languages>, validation: Option<LakeValidationConfig>)

  datatype Lake = Lake(
    name: string, displayName: string, description: string, lakePrefix: string,
    createTime: Option<Timestamp>, updateTime: Option<Timestamp>, config: Option<LakeConfig>)

  datatype BundleConfig = BundleConfig(languages: Option<Languages>)

  datatype Bundle = Bundle(
    name: string, displayName: string, description: string, bundlePrefix: string,
    version: string, createTime: Option<Timestamp>, updateTime: Option<Timestamp>,
    config: Option<BundleConfig>)

  /** The default instances of the config messages. */
  const EmptyLakeConfig := LakeConfig("", None, None, None)
  const EmptyLanguages := Languages(None, None, None, None)
  const EmptyJavaConfig := JavaConfig(false, "", "", "", "", "", "", false, "")
  const EmptyPythonConfig := PythonConfig(false, "", "", "", "", "", "")
  const EmptyJavaScriptConfig := JavaScriptConfig(false, "", "", "", "", "", false, "")
  const EmptyModuleBazel := ModuleBazel("", "", "")

  /** `lake.getConfig()`: the lake's config, or the default instance when unset. */
  function LakeConfigOf(lake: Lake): LakeConfig {
    if lake.config.Some? then lake.config.value else EmptyLakeConfig
  }
}
