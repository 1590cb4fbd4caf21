/** Creating a bundle inside a lake (`BundleInitializer`): the name check,
    the bundle message and its defaults, the refusal to overwrite an
    existing `bundle.yaml`, and the template contexts of `bundle.yaml`,
    `example.proto` and the bundle's README. Which files exist is a
    parameter and so is the clock reading; rendering the templates and the
    git commit are not modelled. */
module BundleInitializer {
  import opened Text
  import opened JavaText
  import opened JavaPaths
  import opened Protos
  import opened InitCommon
  import LakeUtil
  import BundleUtil

  /** `validateBundleName`. */
  function ValidateBundleName(name: Option<string>): Result<string> {
    CheckName("Bundle", name)
  }

  // ---------------------------------------------------------------------
  // `toPascalCase`.

  /** One part with its first character upper-cased and the rest
      lower-cased. */
  function Capitalize(part: string): string {
    if part == "" then "" else [ToUpperChar(part[0])] + ToLower(part[1..])
  }

  /** The capitalized parts one after another; empty parts add nothing. */
  function PascalParts(parts: seq<string>): string {
    if parts == [] then "" else PascalParts(parts[..|parts| - 1]) + Capitalize(parts[|parts| - 1])
  }

  /** What `toPascalCase` returns: the parts between hyphens, capitalized
      and run together. */
  function PascalCase(input: string): string {
    if input == "" then input else PascalParts(SplitJava(input, "-"))
  }

  /** `toPascalCase`, appending to a `StringBuilder` part by part. */
  method ToPascalCase(input: string) returns (r: string)
    ensures r == PascalCase(input)
  {
    if input == "" {
      return input;
    }
    var parts := SplitJava(input, "-");
    r := "";
    for i := 0 to |parts|
      invariant r == PascalParts(parts[..i])
    {
      assert parts[..i + 1][..i] == parts[..i];
      var part := parts[i];
      if part != "" {
        r := r + [ToUpperChar(part[0])];
        if |part| > 1 {
          r := r + ToLower(part[1..]);
        } else {
          assert ToLower(part[1..]) == "";
        }
      }
    }
    assert parts[..|parts|] == parts;
  }

  /** Parts run together with nothing between them. */
  function Glued(parts: seq<string>): string {
    if parts == [] then "" else Glued(parts[..|parts| - 1]) + parts[|parts| - 1]
  }

  lemma ToLowerConcat(a: string, b: string)
    ensures ToLower(a + b) == ToLower(a) + ToLower(b)
  {
    var l, r := ToLower(a + b), ToLower(a) + ToLower(b);
    forall i | 0 <= i < |l| ensures l[i] == r[i] {
      if i < |a| {
        assert (a + b)[i] == a[i];
      } else {
        assert (a + b)[i] == b[i - |a|];
      }
    }
  }

  /** Case aside, capitalizing changes nothing. */
  lemma ToLowerCapitalize(part: string)
    ensures ToLower(Capitalize(part)) == ToLower(part)
  {
    var c, l, r := Capitalize(part), ToLower(Capitalize(part)), ToLower(part);
    forall i | 0 <= i < |l| ensures l[i] == r[i] {
      if i == 0 {
        assert c[0] == ToUpperChar(part[0]);
      } else {
        assert c[i] == ToLower(part[1..])[i - 1] == ToLowerChar(part[i]);
      }
    }
  }

  lemma {:induction false} PascalPartsLower(parts: seq<string>)
    ensures ToLower(PascalParts(parts)) == ToLower(Glued(parts))
  {
    if parts != [] {
      var front, last := parts[..|parts| - 1], parts[|parts| - 1];
      PascalPartsLower(front);
      ToLowerConcat(PascalParts(front), Capitalize(last));
      ToLowerConcat(Glued(front), last);
      ToLowerCapitalize(last);
    }
  }

  lemma {:induction false} GluedDropTrailing(parts: seq<string>)
    ensures Glued(DropTrailingEmpty(parts)) == Glued(parts)
  {
    if parts != [] && parts[|parts| - 1] == "" {
      GluedDropTrailing(parts[..|parts| - 1]);
    }
  }

  lemma {:induction false} GluedCons(x: string, parts: seq<string>)
    ensures Glued([x] + parts) == x + Glued(parts)
  {
    if parts != [] {
      assert ([x] + parts)[..|[x] + parts| - 1] == [x] + parts[..|parts| - 1];
      GluedCons(x, parts[..|parts| - 1]);
    } else {
      assert Glued([x]) == Glued([]) + x;
    }
  }

  lemma RemoveCharConcat(s: string, t: string, a: char)
    ensures RemoveChar(s + t, a) == RemoveChar(s, a) + RemoveChar(t, a)
    decreases |s|
  {
    if s != "" {
      assert (s + t)[1..] == s[1..] + t;
      RemoveCharConcat(s[1..], t, a);
    } else {
      assert s + t == t;
    }
  }

  lemma RemoveCharAbsent(s: string, a: char)
    requires !HasChar(s, a)
    ensures RemoveChar(s, a) == s
    decreases |s|
  {
    if s != "" {
      assert !HasChar(s[1..], a) by {
        forall i | 0 <= i < |s[1..]| ensures s[1..][i] != a {
          assert s[1..][i] == s[i + 1];
        }
      }
      RemoveCharAbsent(s[1..], a);
      assert s == [s[0]] + s[1..];
    }
  }

  /** Splitting at a character and gluing the parts drops that character. */
  lemma {:induction false} GluedSplit(s: string, a: char)
    ensures Glued(Split(s, [a])) == RemoveChar(s, a)
    decreases |s|
  {
    match Find(s, [a])
    case None =>
      FindIffContains(s, [a]);
      ContainsCharIffHasChar(s, a);
      RemoveCharAbsent(s, a);
      assert Glued([s]) == Glued([]) + s;
    case Some(i) =>
      FindCharFirst(s, a, i);
      GluedSplit(s[i + 1..], a);
      assert Split(s, [a]) == [s[..i]] + Split(s[i + 1..], [a]);
      assert s == s[..i] + ([a] + s[i + 1..]);
      GluedRemoveStep(s[..i], s[i + 1..], a, Split(s[i + 1..], [a]));
  }

  /** The step of `GluedSplit` at the first occurrence of the character. */
  lemma GluedRemoveStep(head: string, rest: string, a: char, parts: seq<string>)
    requires !HasChar(head, a) && Glued(parts) == RemoveChar(rest, a)
    ensures Glued([head] + parts) == RemoveChar(head + ([a] + rest), a)
  {
    GluedCons(head, parts);
    RemoveCharConcat(head, [a] + rest, a);
    RemoveCharConcat([a], rest, a);
    RemoveCharAbsent(head, a);
    assert RemoveChar([a], a) == "";
  }

  /** Case aside, `toPascalCase` only drops the hyphens. */
  lemma PascalCaseLetters(input: string)
    ensures ToLower(PascalCase(input)) == ToLower(RemoveChar(input, '-'))
  {
    if input != "" {
      var parts := SplitJava(input, "-");
      PascalPartsLower(parts);
      GluedSplit(input, '-');
      if Contains(input, "-") {
        GluedDropTrailing(Split(input, "-"));
      } else {
        FindIffContains(input, "-");
      }
    }
  }

  /** So the result holds no hyphen. */
  lemma PascalCaseNoHyphen(input: string)
    ensures !HasChar(PascalCase(input), '-')
  {
    var r := PascalCase(input);
    PascalCaseLetters(input);
    forall k | 0 <= k < |r| ensures r[k] != '-' {
      assert ToLower(r)[k] == ToLower(RemoveChar(input, '-'))[k];
      assert RemoveChar(input, '-')[k] != '-';
    }
  }

  // ---------------------------------------------------------------------
  // `initializeBundle`.

  /** The bundle message `initializeBundle` builds: version `1.0.0`, the
      name standing in for a missing display name, an empty description
      for a missing one, and the prefix only when one is given. */
  function NewBundle(lakeId: string, name: string, displayName: Option<string>, description: Option<string>,
                     bundlePrefix: Option<string>, config: Option<BundleConfig>, now: Timestamp): Bundle
  {
    Bundle(BundleUtil.ToResourceName(lakeId, name), OrElse(displayName, name), OrElse(description, ""),
           OrElse(bundlePrefix, ""), "1.0.0", Some(now), Some(now), config)
  }

  /** `initializeBundle` up to the writes: a rejected name, or a bundle
      whose `bundle.yaml` already exists, is an error; otherwise the new
      bundle. */
  method InitializeBundle(lake: Lake, name: Option<string>, displayName: Option<string>, description: Option<string>,
                          bundlePrefix: Option<string>, config: Option<BundleConfig>, now: Timestamp,
                          basePath: string, existing: set<Path>)
    returns (r: Result<Bundle>)
    ensures ValidateBundleName(name).Err? ==> r == Err(ValidateBundleName(name).error)
    ensures ValidateBundleName(name).Ok? ==>
      var bundle := NewBundle(LakeUtil.ExtractLakeId(lake.name), name.value, displayName, description, bundlePrefix, config, now);
      var yaml := BundleUtil.GetBundleYamlPath(lake, bundle, basePath);
      (r.Ok? <==> yaml !in existing) &&
      (r.Ok? ==> r.value == bundle) &&
      (r.Err? ==> r.error == "Bundle already exists at: " + ToString(BundleUtil.CalculateBundlePath(lake, bundle, basePath)))
  {
    var lakeName := LakeUtil.ExtractLakeId(lake.name);
    var checked := ValidateBundleName(name);
    if checked.Err? {
      return Err(checked.error);
    }
    var bundle := Bundle(BundleUtil.ToResourceName(lakeName, name.value), OrElse(displayName, name.value),
                         OrElse(description, ""), "", "1.0.0", Some(now), Some(now), None);
    if bundlePrefix.Some? && bundlePrefix.value != "" {
      bundle := bundle.(bundlePrefix := bundlePrefix.value);
    }
    if config.Some? {
      bundle := bundle.(config := config);
    }
    var bundlePath := BundleUtil.CalculateBundlePath(lake, bundle, basePath);
    if BundleUtil.GetBundleYamlPath(lake, bundle, basePath) in existing {
      return Err("Bundle already exists at: " + ToString(bundlePath));
    }
    return Ok(bundle);
  }

  /** A new bundle's name gives its id and its lake's id back, as long as
      the lake id is not `bundles` (see `BundleUtil.LakeNamedBundles`). */
  lemma NewBundleIds(lakeId: string, name: Option<string>, displayName: Option<string>, description: Option<string>,
                     bundlePrefix: Option<string>, config: Option<BundleConfig>, now: Timestamp)
    requires ValidateBundleName(name).Ok? && !HasChar(lakeId, '/') && lakeId != "bundles"
    ensures var b := NewBundle(lakeId, name.value, displayName, description, bundlePrefix, config, now);
      BundleUtil.ExtractBundleIdAsWritten(b.name) == name.value &&
      BundleUtil.ExtractLakeIdFromBundle(b.name) == lakeId
  {
    CheckedNamePlain("Bundle", name);
    NoSlashNoSep(name.value);
    BundleUtil.BundleIdRoundTripAsWritten(lakeId, name.value);
    BundleUtil.LakeIdRoundTrip(lakeId, name.value);
  }

  lemma NoSlashNoSep(s: string)
    requires !HasChar(s, '/')
    ensures !Contains(s, BundleUtil.BundlesSep)
  {
    forall j | 0 <= j <= |s| - |BundleUtil.BundlesSep| ensures !OccursAt(s, BundleUtil.BundlesSep, j) {
      assert s[j] != '/';
    }
  }

  // ---------------------------------------------------------------------
  // The template contexts.

  /** The languages a bundle's own config sets, if any. */
  function BundleLanguages(bundle: Bundle): Option<Languages> {
    if bundle.config.Some? && bundle.config.value.languages.Some? then bundle.config.value.languages else None
  }

  /** The template variables of the bundle's templates. */
  datatype Var =
    | BundleId | DisplayName | Description | BundlePrefix | Version
    | JavaEnabled | PythonEnabled | JsEnabled | JavaArtifactId | PythonPackageName | JsPackageName
    | ProtoPackage | BundleName | BundleNamePascalCase

  function VarName(v: Var): string {
    match v
    case BundleId => "bundleId"
    case DisplayName => "displayName"
    case Description => "description"
    case BundlePrefix => "bundlePrefix"
    case Version => "version"
    case JavaEnabled => "javaEnabled"
    case PythonEnabled => "pythonEnabled"
    case JsEnabled => "jsEnabled"
    case JavaArtifactId => "javaArtifactId"
    case PythonPackageName => "pythonPackageName"
    case JsPackageName => "jsPackageName"
    case ProtoPackage => "protoPackage"
    case BundleName => "bundleName"
    case BundleNamePascalCase => "bundleNamePascalCase"
  }

  /** The bundle's own setting for one language, as (enabled, id), if its
      config has one. */
  function JavaSetting(bundle: Bundle): Option<(bool, string)> {
    var l := BundleLanguages(bundle);
    if l.Some? && l.value.java.Some? then Some((l.value.java.value.enabled, l.value.java.value.artifactId)) else None
  }

  function PythonSetting(bundle: Bundle): Option<(bool, string)> {
    var l := BundleLanguages(bundle);
    if l.Some? && l.value.python.Some? then Some((l.value.python.value.enabled, l.value.python.value.packageName)) else None
  }

  function JsSetting(bundle: Bundle): Option<(bool, string)> {
    var l := BundleLanguages(bundle);
    if l.Some? && l.value.javascript.Some? then Some((l.value.javascript.value.enabled, l.value.javascript.value.packageName)) else None
  }

  /** A language is on unless the bundle's own setting turns it off. */
  predicate EnabledBy(setting: Option<(bool, string)>) {
    setting.None? || setting.value.0
  }

  /** The bundle-specific id: the configured one, else empty. */
  function IdOf(setting: Option<(bool, string)>): string {
    if setting.Some? then setting.value.1 else ""
  }

  /** One language's block of `generateBundleYaml`: enabled unless a
      configured language says otherwise; the configured id when it is not
      empty, else empty, which is the configured id whenever there is one. */
  method LanguageSetting(configured: Option<(bool, string)>) returns (enabled: bool, id: string)
    ensures enabled == EnabledBy(configured)
    ensures id == IdOf(configured)
  {
    enabled, id := true, "";
    if configured.Some? {
      enabled := configured.value.0;
      if configured.value.1 != "" {
        id := configured.value.1;
      }
    }
  }

  const BundleYamlVars := {BundleId, DisplayName, Description, BundlePrefix, Version,
                           JavaEnabled, PythonEnabled, JsEnabled, JavaArtifactId, PythonPackageName, JsPackageName}

  /** What every template variable stands for, for a given bundle. */
  function TemplateValue(bundle: Bundle, v: Var): Value {
    match v
    case BundleId => Str(BundleUtil.ExtractBundleIdAsWritten(bundle.name))
    case DisplayName => Str(bundle.displayName)
    case Description => Str(bundle.description)
    case BundlePrefix => Str(bundle.bundlePrefix)
    case Version => Str(bundle.version)
    case JavaEnabled => Flag(EnabledBy(JavaSetting(bundle)))
    case PythonEnabled => Flag(EnabledBy(PythonSetting(bundle)))
    case JsEnabled => Flag(EnabledBy(JsSetting(bundle)))
    case JavaArtifactId => Str(IdOf(JavaSetting(bundle)))
    case PythonPackageName => Str(IdOf(PythonSetting(bundle)))
    case JsPackageName => Str(IdOf(JsSetting(bundle)))
    case ProtoPackage => Str(FormattedProtoPackage(bundle))
    case BundleName => Str(BundleUtil.ExtractBundleIdAsWritten(bundle.name))
    case BundleNamePascalCase => Str(PascalCase(BundleUtil.ExtractBundleIdAsWritten(bundle.name)))
  }

  /** A context whose every variable holds the bundle's value for it. */
  predicate Describes(context: Context<Var>, bundle: Bundle) {
    forall v :: v in context ==> context[v] == TemplateValue(bundle, v)
  }

  /** The bundle's own fields, the first part of `generateBundleYaml`'s context. */
  method HeaderContext(bundle: Bundle) returns (context: Context<Var>)
    ensures context.Keys == {BundleId, DisplayName, Description, BundlePrefix, Version}
    ensures Describes(context, bundle)
  {
    context := map[BundleId := Str(BundleUtil.ExtractBundleIdAsWritten(bundle.name)),
                   DisplayName := Str(bundle.displayName),
                   Description := Str(bundle.description),
                   BundlePrefix := Str(bundle.bundlePrefix),
                   Version := Str(bundle.version)];
  }

  /** The six language entries describe the bundle once each comes from
      the bundle's setting for its language. */
  lemma LanguageEntries(bundle: Bundle, javaEnabled: bool, javaArtifactId: string, pythonEnabled: bool,
                        pythonPackageName: string, jsEnabled: bool, jsPackageName: string)
    requires javaEnabled == EnabledBy(JavaSetting(bundle)) && javaArtifactId == IdOf(JavaSetting(bundle))
    requires pythonEnabled == EnabledBy(PythonSetting(bundle)) && pythonPackageName == IdOf(PythonSetting(bundle))
    requires jsEnabled == EnabledBy(JsSetting(bundle)) && jsPackageName == IdOf(JsSetting(bundle))
    ensures Describes(map[JavaEnabled := Flag(javaEnabled),
                          PythonEnabled := Flag(pythonEnabled),
                          JsEnabled := Flag(jsEnabled),
                          JavaArtifactId := Str(javaArtifactId),
                          PythonPackageName := Str(pythonPackageName),
                          JsPackageName := Str(jsPackageName)], bundle)
  {
  }

  /** The language part of `generateBundleYaml`'s context. */
  method LanguageContext(bundle: Bundle) returns (context: Context<Var>)
    ensures context.Keys == {JavaEnabled, PythonEnabled, JsEnabled, JavaArtifactId, PythonPackageName, JsPackageName}
    ensures Describes(context, bundle)
  {
    var javaEnabled, javaArtifactId := LanguageSetting(JavaSetting(bundle));
    var pythonEnabled, pythonPackageName := LanguageSetting(PythonSetting(bundle));
    var jsEnabled, jsPackageName := LanguageSetting(JsSetting(bundle));
    LanguageEntries(bundle, javaEnabled, javaArtifactId, pythonEnabled, pythonPackageName, jsEnabled, jsPackageName);
    context := map[JavaEnabled := Flag(javaEnabled),
                   PythonEnabled := Flag(pythonEnabled),
                   JsEnabled := Flag(jsEnabled),
                   JavaArtifactId := Str(javaArtifactId),
                   PythonPackageName := Str(pythonPackageName),
                   JsPackageName := Str(jsPackageName)];
  }

  /** `generateBundleYaml`'s context: the bundle's fields and the language
      settings, under eleven distinct variables. */
  method BundleYamlContext(bundle: Bundle) returns (context: Context<Var>)
    ensures context.Keys == BundleYamlVars
    ensures Describes(context, bundle)
  {
    var header := HeaderContext(bundle);
    var languages := LanguageContext(bundle);
    context := header + languages;
  }

  /** A bundle without a config of its own gets every language enabled and
      no bundle-specific ids; one that configures a language gets exactly
      its settings. */
  lemma BundleYamlDefaults(bundle: Bundle)
    ensures bundle.config.None? ==>
      EnabledBy(JavaSetting(bundle)) && EnabledBy(PythonSetting(bundle)) && EnabledBy(JsSetting(bundle)) &&
      IdOf(JavaSetting(bundle)) == IdOf(PythonSetting(bundle)) == IdOf(JsSetting(bundle)) == ""
    ensures bundle.config.Some? && bundle.config.value.languages.Some? && bundle.config.value.languages.value.java.Some? ==>
      var java := bundle.config.value.languages.value.java.value;
      EnabledBy(JavaSetting(bundle)) == java.enabled && IdOf(JavaSetting(bundle)) == java.artifactId
  {
  }

  /** The proto package the templates get: the full package with every
      hyphen turned into an underscore. */
  function FormattedProtoPackage(bundle: Bundle): string {
    ReplaceChar(BundleUtil.GetFullProtoPackage(bundle), '-', '_')
  }

  /** The three entries of the `example.proto` context describe the bundle
      once the Pascal-case name is the bundle id's. */
  lemma ProtoEntries(bundle: Bundle, formatted: string, bundleId: string, pascal: string)
    requires formatted == FormattedProtoPackage(bundle)
    requires bundleId == BundleUtil.ExtractBundleIdAsWritten(bundle.name) && pascal == PascalCase(bundleId)
    ensures Describes(map[ProtoPackage := Str(formatted), BundleName := Str(bundleId), BundleNamePascalCase := Str(pascal)], bundle)
  {
  }

  /** `createBundleStructure`'s context for `example.proto`. */
  method ProtoContext(bundle: Bundle) returns (context: Context<Var>)
    ensures context.Keys == {ProtoPackage, BundleName, BundleNamePascalCase}
    ensures Describes(context, bundle)
  {
    var bundleId := BundleUtil.ExtractBundleIdAsWritten(bundle.name);
    var pascal := ToPascalCase(bundleId);
    var formatted := ReplaceChar(BundleUtil.GetFullProtoPackage(bundle), '-', '_');
    ProtoEntries(bundle, formatted, bundleId, pascal);
    context := map[ProtoPackage := Str(formatted), BundleName := Str(bundleId), BundleNamePascalCase := Str(pascal)];
  }

  /** `createBundleStructure`'s context for the bundle's README. */
  method ReadmeContext(bundle: Bundle) returns (context: Context<Var>)
    ensures context.Keys == {DisplayName, Description, BundlePrefix, BundleName, ProtoPackage}
    ensures Describes(context, bundle)
  {
    var formatted := ReplaceChar(BundleUtil.GetFullProtoPackage(bundle), '-', '_');
    var bundleId := BundleUtil.ExtractBundleIdAsWritten(bundle.name);
    context := map[DisplayName := Str(bundle.displayName),
                   Description := Str(bundle.description),
                   BundlePrefix := Str(bundle.bundlePrefix),
                   BundleName := Str(bundleId),
                   ProtoPackage := Str(formatted)];
  }

  /** For a new bundle, the formatted package is the prefix, a dot and the
      name, each with hyphens turned into underscores, and none is left. */
  lemma NewBundleProtoPackage(lakeId: string, name: Option<string>, displayName: Option<string>, description: Option<string>,
                              bundlePrefix: Option<string>, config: Option<BundleConfig>, now: Timestamp)
    requires ValidateBundleName(name).Ok? && !HasChar(lakeId, '/') && lakeId != "bundles"
    ensures var b := NewBundle(lakeId, name.value, displayName, description, bundlePrefix, config, now);
      var id := ReplaceChar(name.value, '-', '_');
      FormattedProtoPackage(b) == (if b.bundlePrefix == "" then id else ReplaceChar(b.bundlePrefix, '-', '_') + "." + id) &&
      !HasChar(FormattedProtoPackage(b), '-')
  {
    var b := NewBundle(lakeId, name.value, displayName, description, bundlePrefix, config, now);
    NewBundleIds(lakeId, name, displayName, description, bundlePrefix, config, now);
    assert BundleUtil.GetFullProtoPackage(b) == (if b.bundlePrefix == "" then name.value else b.bundlePrefix + "." + name.value);
    if b.bundlePrefix != "" {
      ReplaceDotted(b.bundlePrefix, name.value);
    }
    ReplacedHasNoHyphen(BundleUtil.GetFullProtoPackage(b));
  }

  lemma ReplaceDotted(prefix: string, id: string)
    ensures ReplaceChar(prefix + "." + id, '-', '_') == ReplaceChar(prefix, '-', '_') + "." + ReplaceChar(id, '-', '_')
  {
    ReplaceCharConcat(prefix + ".", id, '-', '_');
    ReplaceCharConcat(prefix, ".", '-', '_');
    assert ReplaceChar(".", '-', '_') == ".";
  }

  lemma ReplacedHasNoHyphen(s: string)
    ensures !HasChar(ReplaceChar(s, '-', '_'), '-')
  {
    var r := ReplaceChar(s, '-', '_');
    forall k | 0 <= k < |r| ensures r[k] != '-' {
    }
  }
}
