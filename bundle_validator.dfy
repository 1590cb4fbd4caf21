/** The checks a bundle passes before it is created or updated. Every
    rule adds its message to one list, in rule order; a non-empty list is
    thrown as a ValidationException. The storage lookup of the parent lake
    is a map from lake id to lake. */
module BundleValidator {
  import opened Text
  import opened JavaText
  import opened JavaPaths
  import opened Protos
  import BundleUtil
  import LakeUtil
  import PathValidation
  import opened ValidationExceptions

  const Summary := "Bundle validation failed"

  /** The messages, in rule order. */
  const NameRequired := "Bundle name is required"
  const NameInvalid := "Bundle name must contain only alphanumeric characters and underscores"
  const PrefixInvalid := "Invalid proto package format. Expected: com.example.proto"
  const VersionInvalid := "Invalid version format. Expected: X.Y.Z"
  const JavaGroupRequired := "Java group ID is required when Java is enabled"
  const JavaArtifactRequired := "Java artifact ID is required when Java is enabled"
  const PythonPackageRequired := "Python package name is required when Python is enabled"
  const JavaScriptPackageRequired := "JavaScript package name is required when JavaScript is enabled"
  const LakeNameRequired := "Lake name is required in bundle resource name"
  const LakeMissing := "Parent lake does not exist: "
  const OutsideLake := "Bundle path must be within lake: "

  /** The bundle id: required, and a word. */
  function NameErrors(bundleName: string): (errs: seq<string>)
    ensures bundleName == "" ==> errs == [NameRequired]
    ensures bundleName != "" ==> (errs == [] <==> IsWord(bundleName)) && |errs| <= 1
  {
    if bundleName == "" then [NameRequired]
    else if !IsWord(bundleName) then [NameInvalid]
    else []
  }

  /** `[a-zA-Z][a-zA-Z0-9_]*`. */
  predicate IsIdentifier(s: string) {
    |s| > 0 && (IsUpper(s[0]) || IsLower(s[0])) && forall i :: 0 <= i < |s| ==> IsWordChar(s[i])
  }

  /** `^[a-zA-Z][a-zA-Z0-9_]*(\.[a-zA-Z][a-zA-Z0-9_]*)*$`: identifiers
      separated by single dots. */
  predicate IsPackagePattern(prefix: string) {
    var parts := Split(prefix, ".");
    forall i :: 0 <= i < |parts| ==> IsIdentifier(parts[i])
  }

  /** The prefix is optional (blank after trimming); a present one is a
      dotted identifier. */
  function PrefixErrors(prefix: string): (errs: seq<string>)
    ensures errs == [] <==> IsBlankJava(prefix) || IsPackagePattern(prefix)
    ensures |errs| <= 1
  {
    if IsBlankJava(prefix) then []
    else if !IsPackagePattern(prefix) then [PrefixInvalid]
    else []
  }

  /** The version is optional; a present one is `X.Y.Z`. */
  function VersionErrors(version: string): (errs: seq<string>)
    ensures errs == [] <==> version == "" || IsPlainVersion(version)
    ensures |errs| <= 1
  {
    if version != "" && !IsPlainVersion(version) then [VersionInvalid] else []
  }

  /** An enabled Java config names its group and artifact. */
  predicate JavaOk(java: JavaConfig) {
    java.enabled ==> !IsBlankJava(java.groupId) && !IsBlankJava(java.artifactId)
  }

  /** An enabled Python config names its package. */
  predicate PythonOk(python: PythonConfig) {
    python.enabled ==> !IsBlankJava(python.packageName)
  }

  /** An enabled JavaScript config names its package. */
  predicate JavaScriptOk(js: JavaScriptConfig) {
    js.enabled ==> !IsBlankJava(js.packageName)
  }

  /** What the language rules ask of a bundle's config: every enabled
      language names its package; a disabled or absent one is not read. */
  predicate ConfigOk(config: Option<BundleConfig>) {
    config.Some? && config.value.languages.Some? ==>
      var l := config.value.languages.value;
      (l.java.Some? ==> JavaOk(l.java.value)) &&
      (l.python.Some? ==> PythonOk(l.python.value)) &&
      (l.javascript.Some? ==> JavaScriptOk(l.javascript.value))
  }

  function JavaErrors(java: JavaConfig): (errs: seq<string>)
    ensures errs == [] <==> JavaOk(java)
    ensures |errs| <= 2
  {
    (if java.enabled && IsBlankJava(java.groupId) then [JavaGroupRequired] else []) +
    (if java.enabled && IsBlankJava(java.artifactId) then [JavaArtifactRequired] else [])
  }

  function PythonErrors(python: PythonConfig): (errs: seq<string>)
    ensures errs == [] <==> PythonOk(python)
    ensures |errs| <= 1
  {
    if python.enabled && IsBlankJava(python.packageName) then [PythonPackageRequired] else []
  }

  function JavaScriptErrors(js: JavaScriptConfig): (errs: seq<string>)
    ensures errs == [] <==> JavaScriptOk(js)
    ensures |errs| <= 1
  {
    if js.enabled && IsBlankJava(js.packageName) then [JavaScriptPackageRequired] else []
  }

  function LanguageErrors(l: Languages): (errs: seq<string>)
    ensures |errs| <= 4
  {
    (if l.java.Some? then JavaErrors(l.java.value) else []) +
    (if l.python.Some? then PythonErrors(l.python.value) else []) +
    (if l.javascript.Some? then JavaScriptErrors(l.javascript.value) else [])
  }

  /** `validateConfig`: Java, then Python, then JavaScript. */
  function ConfigErrors(config: Option<BundleConfig>): (errs: seq<string>)
    ensures errs == [] <==> ConfigOk(config)
    ensures |errs| <= 4
  {
    if config.None? || config.value.languages.None? then []
    else LanguageErrors(config.value.languages.value)
  }

  /** `validateBundlePrefixConsistency`. */
  function PrefixConsistencyErrors(bundle: Bundle, lake: Lake, basePath: string): seq<string> {
    var bundleName := BundleUtil.ExtractBundleIdAsWritten(bundle.name);
    var bundlePath := BundleUtil.CalculateBundlePath(lake, bundle, basePath);
    var lakePath := LakeUtil.GetLocalPath(lake, basePath);
    if !PathValidation.ValidateBundlePrefix(bundle.bundlePrefix, bundleName, bundlePath, lakePath) then
      ["Bundle prefix mismatch. Configuration has '" + bundle.bundlePrefix + "' but actual path suggests '"
       + PathValidation.CalculateBundlePrefix(bundlePath, bundleName, lakePath) + "'"]
    else []
  }

  /** `validateBundlePath`: a bundle outside its lake gets one error and
      no further path checks; the existence probes only log. */
  function PathErrors(bundle: Bundle, lake: Lake, basePath: string): seq<string> {
    var lakePath := LakeUtil.GetLocalPath(lake, basePath);
    if !StartsWithPath(BundleUtil.CalculateBundlePath(lake, bundle, basePath), lakePath) then
      [OutsideLake + ToString(lakePath)]
    else PrefixConsistencyErrors(bundle, lake, basePath)
  }

  /** The parent lake: named in the resource name, and stored; the path
      rules run only for a stored lake. */
  function LakeErrors(bundle: Bundle, lakes: map<string, Lake>, basePath: string): seq<string> {
    var lakeName := BundleUtil.ExtractLakeIdFromBundle(bundle.name);
    if lakeName == "" then [LakeNameRequired]
    else if lakeName !in lakes then [LakeMissing + lakeName]
    else PathErrors(bundle, lakes[lakeName], basePath)
  }

  /** Every error `validate` collects, in rule order. */
  function BundleErrors(bundle: Bundle, lakes: map<string, Lake>, basePath: string): seq<string> {
    NameErrors(BundleUtil.ExtractBundleIdAsWritten(bundle.name)) + LakeErrors(bundle, lakes, basePath)
    + PrefixErrors(bundle.bundlePrefix) + VersionErrors(bundle.version) + ConfigErrors(bundle.config)
  }

  /** `validateBundlePath`, adding to the caller's list. */
  method ValidateBundlePath(bundle: Bundle, lake: Lake, basePath: string, errors: seq<string>) returns (out: seq<string>)
    ensures out == errors + PathErrors(bundle, lake, basePath)
  {
    out := errors;
    var lakePath := LakeUtil.GetLocalPath(lake, basePath);
    var bundlePath := BundleUtil.CalculateBundlePath(lake, bundle, basePath);
    if !StartsWithPath(bundlePath, lakePath) {
      out := out + [OutsideLake + ToString(lakePath)];
      return;
    }
    out := out + PrefixConsistencyErrors(bundle, lake, basePath);
  }

  /** `validateConfig`, adding to the caller's list. */
  method ValidateConfig(bundle: Bundle, errors: seq<string>) returns (out: seq<string>)
    ensures out == errors + ConfigErrors(bundle.config)
  {
    out := errors;
    if bundle.config.None? {
      return;
    }
    var languages := bundle.config.value.languages;
    if languages.Some? {
      var l := languages.value;
      if l.java.Some? {
        var java := l.java.value;
        if java.enabled && IsBlankJava(java.groupId) {
          out := out + [JavaGroupRequired];
        }
        if java.enabled && IsBlankJava(java.artifactId) {
          out := out + [JavaArtifactRequired];
        }
      }
      assert out == errors + (if l.java.Some? then JavaErrors(l.java.value) else []);
      var afterJava := out;
      if l.python.Some? {
        var python := l.python.value;
        if python.enabled && IsBlankJava(python.packageName) {
          out := out + [PythonPackageRequired];
        }
      }
      assert out == afterJava + (if l.python.Some? then PythonErrors(l.python.value) else []);
      var afterPython := out;
      if l.javascript.Some? {
        var js := l.javascript.value;
        if js.enabled && IsBlankJava(js.packageName) {
          out := out + [JavaScriptPackageRequired];
        }
      }
      var javaErrs := if l.java.Some? then JavaErrors(l.java.value) else [];
      var pythonErrs := if l.python.Some? then PythonErrors(l.python.value) else [];
      var jsErrs := if l.javascript.Some? then JavaScriptErrors(l.javascript.value) else [];
      assert out == afterPython + jsErrs;
      AppendAssoc(errors, javaErrs, pythonErrs, jsErrs);
    }
  }

  lemma AppendAssoc(e: seq<string>, a: seq<string>, b: seq<string>, c: seq<string>)
    ensures e + a + b + c == e + (a + b + c)
  {
  }

  /** `validate`: nothing when every rule passes; otherwise the exception
      carrying every error in rule order. */
  method Validate(bundle: Bundle, lakes: map<string, Lake>, basePath: string) returns (thrown: Option<ValidationException>)
    ensures thrown.None? <==> BundleErrors(bundle, lakes, basePath) == []
    ensures thrown.Some? ==> thrown.value == NewValidationException(Summary, BundleErrors(bundle, lakes, basePath))
  {
    var errors: seq<string> := [];
    var bundleName := BundleUtil.ExtractBundleIdAsWritten(bundle.name);
    if bundleName == "" {
      errors := errors + [NameRequired];
    } else if !IsWord(bundleName) {
      errors := errors + [NameInvalid];
    }
    assert errors == NameErrors(bundleName);
    var lakeName := BundleUtil.ExtractLakeIdFromBundle(bundle.name);
    if lakeName == "" {
      errors := errors + [LakeNameRequired];
    } else if lakeName !in lakes {
      errors := errors + [LakeMissing + lakeName];
    } else {
      errors := ValidateBundlePath(bundle, lakes[lakeName], basePath, errors);
    }
    assert errors == NameErrors(bundleName) + LakeErrors(bundle, lakes, basePath);
    errors := errors + PrefixErrors(bundle.bundlePrefix);
    errors := errors + VersionErrors(bundle.version);
    errors := ValidateConfig(bundle, errors);
    if errors != [] {
      return Some(NewValidationException(Summary, errors));
    }
    return None;
  }

  /** The prefix-consistency rule never fires: the path it checks is built
      from the very prefix it checks against. */
  lemma PrefixConsistencyNeverFires(bundle: Bundle, lake: Lake, basePath: string)
    ensures PrefixConsistencyErrors(bundle, lake, basePath) == []
  {
    var bundleName := BundleUtil.ExtractBundleIdAsWritten(bundle.name);
    var lakePath := LakeUtil.GetLocalPath(lake, basePath);
    assert BundleUtil.CalculateBundlePath(lake, bundle, basePath)
        == BundleUtil.CalculateBundlePathFrom(lakePath, bundle.bundlePrefix, bundleName);
  }

  /** So the path rules add one error exactly when the bundle lies outside
      its lake, and none otherwise. */
  lemma PathErrorsIffOutside(bundle: Bundle, lake: Lake, basePath: string)
    ensures var outside := !StartsWithPath(BundleUtil.CalculateBundlePath(lake, bundle, basePath), LakeUtil.GetLocalPath(lake, basePath));
      (outside ==> |PathErrors(bundle, lake, basePath)| == 1) && (!outside ==> PathErrors(bundle, lake, basePath) == [])
  {
    PrefixConsistencyNeverFires(bundle, lake, basePath);
  }

  /** An identifier is a plain path name. */
  lemma IdentifierPlain(s: string)
    requires IsIdentifier(s)
    ensures IsName(s) && !HasChar(s, '\\') && !HasChar(s, '.')
  {
  }

  /** A dotted identifier names plain directories. */
  lemma PackagePatternPlain(prefix: string)
    requires IsPackagePattern(prefix)
    ensures BundleUtil.PlainPackage(prefix)
  {
    var ds := BundleUtil.PackageDirs(prefix);
    forall i | 0 <= i < |ds| ensures IsName(ds[i]) && !HasChar(ds[i], '\\') {
      IdentifierPlain(ds[i]);
    }
  }

  /** A bundle `lakes/{lake}/bundles/{id}` with a word id, a stored lake
      not called `bundles`, a dotted-identifier or empty prefix, an `X.Y.Z`
      or empty version and named packages for its enabled languages
      passes every rule. */
  lemma WellFormedBundleAccepted(lakeId: string, bundleId: string, bundle: Bundle, lakes: map<string, Lake>, basePath: string)
    requires bundle.name == BundleUtil.ToResourceName(lakeId, bundleId)
    requires lakeId != "" && lakeId != "bundles" && !HasChar(lakeId, '/') && lakeId in lakes && IsWord(bundleId)
    requires bundle.bundlePrefix == "" || IsPackagePattern(bundle.bundlePrefix)
    requires bundle.version == "" || IsPlainVersion(bundle.version)
    requires ConfigOk(bundle.config)
    ensures BundleErrors(bundle, lakes, basePath) == []
  {
    WordFree(bundleId);
    BundleUtil.SlashFreeNoSep(bundleId);
    BundleUtil.BundleIdRoundTripAsWritten(lakeId, bundleId);
    BundleUtil.LakeIdRoundTrip(lakeId, bundleId);
    if bundle.bundlePrefix != "" {
      PackagePatternPlain(bundle.bundlePrefix);
    }
    BundleUtil.BundlePathLayout(lakes[lakeId], bundle, basePath);
    PathErrorsIffOutside(bundle, lakes[lakeId], basePath);
  }

  /** As written, a bundle of a lake called `bundles` is refused, whatever
      its id: the id read back is `bundles/{id}`, which is not a word. */
  lemma LakeNamedBundlesRejected(bundleId: string, bundle: Bundle, lakes: map<string, Lake>, basePath: string)
    requires bundle.name == BundleUtil.ToResourceName("bundles", bundleId) && IsWord(bundleId)
    ensures BundleErrors(bundle, lakes, basePath) != []
    ensures NameErrors(BundleUtil.ExtractBundleIdAsWritten(bundle.name)) == [NameInvalid]
  {
    LakeNamedBundleIdInvalid(bundleId);
    var nameErrors := NameErrors(BundleUtil.ExtractBundleIdAsWritten(bundle.name));
    assert BundleErrors(bundle, lakes, basePath)[..|nameErrors|] == nameErrors;
  }

  /** The id as written, `bundles/<id>`, is not a word. */
  lemma LakeNamedBundleIdInvalid(bundleId: string)
    requires IsWord(bundleId)
    ensures NameErrors(BundleUtil.ExtractBundleIdAsWritten(BundleUtil.ToResourceName("bundles", bundleId))) == [NameInvalid]
  {
    WordFree(bundleId);
    BundleUtil.LakeNamedBundles(bundleId);
    var written := "bundles/" + bundleId;
    assert written[7] == '/';
  }

  /** And a bundle that passes every rule has a word id, a stored lake it
      lies inside, an acceptable prefix, version and config. */
  lemma AcceptedBundleWellFormed(bundle: Bundle, lakes: map<string, Lake>, basePath: string)
    requires BundleErrors(bundle, lakes, basePath) == []
    ensures IsWord(BundleUtil.ExtractBundleIdAsWritten(bundle.name))
    ensures var lakeName := BundleUtil.ExtractLakeIdFromBundle(bundle.name);
      lakeName in lakes &&
      StartsWithPath(BundleUtil.CalculateBundlePath(lakes[lakeName], bundle, basePath), LakeUtil.GetLocalPath(lakes[lakeName], basePath))
    ensures IsBlankJava(bundle.bundlePrefix) || IsPackagePattern(bundle.bundlePrefix)
    ensures bundle.version == "" || IsPlainVersion(bundle.version)
    ensures ConfigOk(bundle.config)
  {
    var lakeName := BundleUtil.ExtractLakeIdFromBundle(bundle.name);
    assert NameErrors(BundleUtil.ExtractBundleIdAsWritten(bundle.name)) == [];
    assert LakeErrors(bundle, lakes, basePath) == [];
    assert PrefixErrors(bundle.bundlePrefix) == [];
    assert VersionErrors(bundle.version) == [];
    assert ConfigErrors(bundle.config) == [];
  }
}
