/** The npm publishers: the coordinates file, the publish mode taken
    from the environment, and what each mode does with the extracted
    package. The generated publisher knows seven modes and the older one
    four. External commands (`tar`, `npm`) are represented by their
    success as a parameter, and a run is described by its outcome and the
    effects it has, in order. An exception ends the script with status
    1, so it is modelled as the failure it produces. */
module NpmPublisher {
  import opened Text
  import opened PkgEditor
  import opened VersionPlaceholder

  // ---------------------------------------------------------------------
  // Coordinates.

  /** `coordinates.rsplit('@', 1)` on the stripped coordinates file;
      `None` where the unpacking raises because there is no `@`. */
  function ParseCoords(text: string): Option<(string, string)> {
    SplitLast(StripPy(text), '@')
  }

  /** The version is what follows the last `@`, so a scoped name keeps its
      leading `@`. */
  lemma ParseCoordsRoundTrip(text: string, name: string, version: string)
    requires StripPy(text) == name + "@" + version && !HasChar(version, '@')
    ensures ParseCoords(text) == Some((name, version))
  {
    SplitLastConcat(name, '@', version);
  }

  // ---------------------------------------------------------------------
  // Modes.

  datatype Mode = Skip | Link | LocalRegistry | FileCopy | Pack | Workspace | Registry

  function ModeName(m: Mode): string {
    match m
    case Skip => "skip"
    case Link => "link"
    case LocalRegistry => "local-registry"
    case FileCopy => "file"
    case Pack => "pack"
    case Workspace => "workspace"
    case Registry => "registry"
  }

  function ModeNamed(name: string): Option<Mode> {
    if name == "skip" then Some(Skip)
    else if name == "link" then Some(Link)
    else if name == "local-registry" then Some(LocalRegistry)
    else if name == "file" then Some(FileCopy)
    else if name == "pack" then Some(Pack)
    else if name == "workspace" then Some(Workspace)
    else if name == "registry" then Some(Registry)
    else None
  }

  /** A name names a mode exactly when `ModeNamed` finds it. */
  lemma ModeNamedIff(name: string)
    ensures forall m: Mode :: ModeNamed(name) == Some(m) <==> ModeName(m) == name
  {
  }

  /** Mode names and modes correspond one to one. */
  lemma ModeNamedInverse(m: Mode, name: string)
    ensures ModeNamed(ModeName(m)) == Some(m)
    ensures ModeNamed(name) == Some(m) ==> name == ModeName(m)
  {
  }

  /** The publisher scripts: the generated npm publisher, the older npm
      publisher and the proto-loader publisher. */
  datatype Script = GeneratedNpm | LegacyNpm | ProtoLoader

  /** The modes a script dispatches on; any other falls to its
      unknown-mode branch. */
  predicate Supports(script: Script, m: Mode) {
    match script
    case GeneratedNpm => true
    case LegacyNpm => m in {Link, LocalRegistry, FileCopy, Pack}
    case ProtoLoader => m in {Skip, FileCopy, Link, Workspace, Registry}
  }

  /** The mode a script uses when `NPM_PUBLISH_MODE` is unset. */
  function DefaultMode(script: Script): string {
    if script == ProtoLoader then "file" else "link"
  }

  /** The mode named by `NPM_PUBLISH_MODE` (or the default) when the script
      supports it; `None` sends the script to its unknown-mode branch. */
  function SelectMode(env: map<string, string>, script: Script): (r: Option<Mode>)
    ensures r.Some? ==> Supports(script, r.value) && ModeName(r.value) == EnvGet(env, "NPM_PUBLISH_MODE", DefaultMode(script))
    ensures r.None? <==> forall m: Mode :: Supports(script, m) ==> ModeName(m) != EnvGet(env, "NPM_PUBLISH_MODE", DefaultMode(script))
  {
    var name := EnvGet(env, "NPM_PUBLISH_MODE", DefaultMode(script));
    var m := ModeNamed(name);
    ModeNamedIff(name);
    if m.Some? && Supports(script, m.value) then m else None
  }

  /** With no mode set, both npm publishers link, whatever the generated
      script's help text says about skipping; the proto-loader publisher
      copies. */
  lemma DefaultModes(env: map<string, string>)
    requires "NPM_PUBLISH_MODE" !in env
    ensures SelectMode(env, GeneratedNpm) == Some(Link)
    ensures SelectMode(env, LegacyNpm) == Some(Link)
    ensures SelectMode(env, ProtoLoader) == Some(FileCopy)
  {
  }

  // ---------------------------------------------------------------------
  // Destinations.

  /** `name.replace('/', '-')`: a scoped name keeps its `@`. */
  function Flatten(name: string): (r: string)
    ensures |r| == |name| && !HasChar(r, '/')
  {
    var r := ReplaceChar(name, '/', '-');
    assert forall i :: 0 <= i < |r| ==> r[i] != '/';
    r
  }

  const PackagesDir := "/.proto-lake/npm-packages/"
  const PacksDir := "/.proto-lake/npm-packs/"

  /** The `file` mode directory `~/.proto-lake/npm-packages/<name>/<version>`. */
  function FileDest(home: string, name: string, version: string): string {
    home + PackagesDir + Flatten(name) + "/" + version
  }

  /** The `pack` mode file `~/.proto-lake/npm-packs/<name>-<version>.tgz`. */
  function PackDest(home: string, name: string, version: string): string {
    home + PacksDir + Flatten(name) + "-" + version + ".tgz"
  }

  /** The `file` directory determines the flattened name and the version:
      two publishes share it exactly when both agree. */
  lemma FileDestDetermines(home: string, n1: string, v1: string, n2: string, v2: string)
    requires !HasChar(v1, '/') && !HasChar(v2, '/')
    ensures FileDest(home, n1, v1) == FileDest(home, n2, v2) <==> Flatten(n1) == Flatten(n2) && v1 == v2
  {
    var p1 := home + PackagesDir + Flatten(n1);
    var p2 := home + PackagesDir + Flatten(n2);
    SplitLastConcat(p1, '/', v1);
    SplitLastConcat(p2, '/', v2);
    if FileDest(home, n1, v1) == FileDest(home, n2, v2) {
      assert p1 + "/" + v1 == p1 + ['/'] + v1;
      assert p2 + "/" + v2 == p2 + ['/'] + v2;
      assert p1 == p2;
      assert Flatten(n1) == p1[|home + PackagesDir|..];
      assert Flatten(n2) == p2[|home + PackagesDir|..];
    }
  }

  /** Flattening merges a scoped name with its dashed twin. */
  lemma FlattenMergesScopes()
    ensures Flatten("@a/b") == Flatten("@a-b")
  {
  }

  // ---------------------------------------------------------------------
  // Workspace targets.

  /** The stripped parts that are not empty, in order. */
  function CleanTargets(parts: seq<string>): (r: seq<string>)
    ensures forall k :: 0 <= k < |r| ==> r[k] != ""
    ensures |r| <= |parts|
  {
    if parts == [] then [] else
    var t := StripPy(parts[0]);
    (if t != "" then [t] else []) + CleanTargets(parts[1..])
  }

  /** `JS_TARGETS` split on commas and newlines, stripped, empties dropped. */
  function ParseTargets(s: string): seq<string> {
    CleanTargets(Split(ReplaceChar(s, '\n', ','), ","))
  }

  lemma StripPyUnchanged(s: string)
    requires s == "" || (!IsPySpace(s[0]) && !IsPySpace(s[|s| - 1]))
    ensures StripPy(s) == s
  {
  }

  lemma {:induction false} SplitJoinChar(parts: seq<string>, c: char)
    requires parts != []
    requires forall k :: 0 <= k < |parts| ==> !HasChar(parts[k], c)
    ensures Split(Join(parts, [c]), [c]) == parts
  {
    if |parts| == 1 {
      ContainsCharIffHasChar(parts[0], c);
      FindIffContains(parts[0], [c]);
    } else {
      SplitJoinChar(parts[1..], c);
      SplitAtChar(parts[0], c, Join(parts[1..], [c]));
    }
  }

  lemma {:induction false} JoinFree(parts: seq<string>, sep: string, c: char)
    requires !HasChar(sep, c)
    requires forall k :: 0 <= k < |parts| ==> !HasChar(parts[k], c)
    ensures !HasChar(Join(parts, sep), c)
  {
    if |parts| > 1 {
      JoinFree(parts[1..], sep, c);
      var rest := Join(parts[1..], sep);
      var s := parts[0] + sep + rest;
      forall i | 0 <= i < |s| ensures s[i] != c {
        if i < |parts[0]| {
          assert s[i] == parts[0][i];
        } else if i < |parts[0]| + |sep| {
          assert s[i] == sep[i - |parts[0]|];
        } else {
          assert s[i] == rest[i - |parts[0]| - |sep|];
        }
      }
    }
  }

  /** A well-formed target list written with commas reads back as itself. */
  lemma ParseTargetsRoundTrip(targets: seq<string>)
    requires forall k :: 0 <= k < |targets| ==>
      targets[k] != "" && !HasChar(targets[k], ',') && !HasChar(targets[k], '\n') &&
      !IsPySpace(targets[k][0]) && !IsPySpace(targets[k][|targets[k]| - 1])
    ensures ParseTargets(Join(targets, ",")) == targets
  {
    var s := Join(targets, ",");
    assert !HasChar(",", '\n');
    JoinFree(targets, ",", '\n');
    assert ReplaceChar(s, '\n', ',') == s;
    if targets == [] {
      assert Split("", ",") == [""] by {
        FindIffContains("", ",");
      }
    } else {
      SplitJoinChar(targets, ',');
      CleanTargetsClean(targets);
    }
  }

  lemma {:induction false} CleanTargetsClean(parts: seq<string>)
    requires forall k :: 0 <= k < |parts| ==>
      parts[k] != "" && !IsPySpace(parts[k][0]) && !IsPySpace(parts[k][|parts[k]| - 1])
    ensures CleanTargets(parts) == parts
  {
    if parts != [] {
      StripPyUnchanged(parts[0]);
      CleanTargetsClean(parts[1..]);
    }
  }

  // ---------------------------------------------------------------------
  // Workspace installs.

  /** Whether `<target>/package.json` exists. */
  predicate HasPackageJson(files: map<string, PackageFile>, target: string) {
    target in files && !files[target].Missing?
  }

  /** The targets installed into, whether every install succeeded, and
      whether one raised (which ends the loop). */
  datatype InstallRun = InstallRun(installed: seq<string>, allOk: bool, raised: bool)

  /** The workspace loop: a target without `package.json` is skipped, any
      other gets the package and a workspace entry. */
  function RunInstalls(targets: seq<string>, files: map<string, PackageFile>): InstallRun {
    if targets == [] then InstallRun([], true, false) else
    var before := RunInstalls(targets[..|targets| - 1], files);
    var t := targets[|targets| - 1];
    if before.raised || !HasPackageJson(files, t) then before
    else match AddWorkspaceEntry(files[t], DefaultGlob)
      case Written(_) => InstallRun(before.installed + [t], before.allOk, false)
      case Refused => InstallRun(before.installed + [t], false, false)
      case Raised => InstallRun(before.installed + [t], before.allOk, true)
  }

  /** The install that makes a target fail or raise. */
  predicate InstallFails(files: map<string, PackageFile>, t: string) {
    HasPackageJson(files, t) && !AddWorkspaceEntry(files[t], DefaultGlob).Written?
  }

  /** The loop succeeds exactly when every target with a `package.json`
      accepts the workspace entry; skipped targets never fail it. */
  lemma {:induction false} RunInstallsOkIff(targets: seq<string>, files: map<string, PackageFile>)
    ensures var r := RunInstalls(targets, files);
      (r.allOk && !r.raised) <==> forall i :: 0 <= i < |targets| ==> !InstallFails(files, targets[i])
    ensures var r := RunInstalls(targets, files);
      !r.raised ==> forall k :: 0 <= k < |r.installed| ==> HasPackageJson(files, r.installed[k])
  {
    if targets != [] {
      var front := targets[..|targets| - 1];
      RunInstallsOkIff(front, files);
      assert forall i :: 0 <= i < |front| ==> front[i] == targets[i];
      var r := RunInstalls(targets, files);
      var b := RunInstalls(front, files);
      if b.raised {
        assert !(b.allOk && !b.raised);
      }
    }
  }

  // ---------------------------------------------------------------------
  // Registry mode.

  /** `NPM_REGISTRY_TOKEN`, else `REGISTRY_TOKEN`, an empty value counting as unset. */
  function RegistryToken(env: map<string, string>): string {
    var primary := EnvGet(env, "NPM_REGISTRY_TOKEN", "");
    if primary != "" then primary else EnvGet(env, "REGISTRY_TOKEN", "")
  }

  predicate IsSchemeChar(c: char) { IsAlnum(c) || c == '+' || c == '-' || c == '.' }

  /** The URL without the `scheme:` that `urlparse` recognises. */
  function SchemeRest(url: string): string {
    match Find(url, ":")
    case Some(i) =>
      if i > 0 && (IsUpper(url[0]) || IsLower(url[0])) && (forall k :: 0 <= k < i ==> IsSchemeChar(url[k]))
      then url[i + 1..] else url
    case None => url
  }

  /** The first index at or after `from` holding one of `stops`, else `|s|`. */
  function FirstOf(s: string, from: nat, stops: set<char>): (r: nat)
    requires from <= |s|
    ensures from <= r <= |s|
    ensures forall k :: from <= k < r ==> s[k] !in stops
    ensures r < |s| ==> s[r] in stops
    decreases |s| - from
  {
    if from == |s| || s[from] in stops then from else FirstOf(s, from + 1, stops)
  }

  /** `//<netloc><path>` of the URL after its scheme. */
  function HostPath(rest: string): string {
    var netlocEnd := if StartsWith(rest, "//") then FirstOf(rest, 2, {'/', '?', '#'}) else 0;
    var netloc := if StartsWith(rest, "//") then rest[2..netlocEnd] else "";
    var tail := rest[netlocEnd..];
    "//" + netloc + tail[..FirstOf(tail, 0, {'?', '#'})]
  }

  /** `//<netloc><path>` of `urlparse(url)`. */
  function RegistryHost(url: string): string {
    HostPath(SchemeRest(url))
  }

  /** The `.npmrc` line of registry mode. */
  function NpmrcLine(url: string, token: string): string {
    RegistryHost(url) + ":_authToken=" + token + "\n"
  }

  /** A recognised scheme is removed with its colon. */
  lemma SchemeRestOf(scheme: string, rest: string)
    requires scheme != [] && (IsUpper(scheme[0]) || IsLower(scheme[0]))
    requires forall k :: 0 <= k < |scheme| ==> IsSchemeChar(scheme[k])
    ensures SchemeRest(scheme + ":" + rest) == rest
  {
    var url := scheme + ":" + rest;
    assert forall k :: 0 <= k < |scheme| ==> url[k] == scheme[k];
    assert OccursAt(url, ":", |scheme|);
    forall j | 0 <= j < |scheme| ensures !OccursAt(url, ":", j) {
      assert url[j..j + 1][0] == scheme[j];
    }
    FindFirst(url, ":", |scheme|);
    assert url[|scheme| + 1..] == rest;
  }

  /** `FirstOf` stops at the first stop character. */
  lemma {:induction false} FirstOfAt(s: string, from: nat, i: nat, stops: set<char>)
    requires from <= i <= |s|
    requires forall k :: from <= k < i ==> s[k] !in stops
    requires i == |s| || s[i] in stops
    ensures FirstOf(s, from, stops) == i
    decreases i - from
  {
    if from < i {
      FirstOfAt(s, from + 1, i, stops);
    }
  }

  lemma HostPathOf(host: string, path: string)
    requires forall k :: 0 <= k < |host| ==> host[k] != '/' && host[k] != '?' && host[k] != '#'
    requires forall k :: 0 <= k < |path| ==> path[k] != '?' && path[k] != '#'
    requires path == [] || path[0] == '/'
    ensures HostPath("//" + host + path) == "//" + host + path
  {
    var rest := "//" + host + path;
    assert rest[..2] == "//";
    assert forall k :: 2 <= k < 2 + |host| ==> rest[k] == host[k - 2];
    FirstOfAt(rest, 2, 2 + |host|, {'/', '?', '#'});
    assert rest[2..2 + |host|] == host;
    assert rest[2 + |host|..] == path;
    FirstOfAt(path, 0, |path|, {'?', '#'});
    assert path[..|path|] == path;
  }

  /** For `scheme://host/path`, the `.npmrc` key is `//host/path`. */
  lemma RegistryHostOf(scheme: string, host: string, path: string)
    requires scheme != [] && (IsUpper(scheme[0]) || IsLower(scheme[0]))
    requires forall k :: 0 <= k < |scheme| ==> IsSchemeChar(scheme[k])
    requires forall k :: 0 <= k < |host| ==> host[k] != '/' && host[k] != '?' && host[k] != '#'
    requires forall k :: 0 <= k < |path| ==> path[k] != '?' && path[k] != '#'
    requires path == [] || path[0] == '/'
    ensures RegistryHost(scheme + "://" + host + path) == "//" + host + path
  {
    var rest := "//" + host + path;
    assert scheme + "://" + host + path == scheme + ":" + rest;
    SchemeRestOf(scheme, rest);
    HostPathOf(host, path);
  }

  /** Where the first occurrence is, once it is known that none comes before. */
  lemma FindFirst(s: string, p: string, i: nat)
    requires i + |p| <= |s| && OccursAt(s, p, i)
    requires forall j :: 0 <= j < i ==> !OccursAt(s, p, j)
    ensures Find(s, p) == Some(i)
  {
    FindFromFirst(s, p, 0, i);
  }

  lemma {:induction false} FindFromFirst(s: string, p: string, from: nat, i: nat)
    requires from <= i && i + |p| <= |s| && OccursAt(s, p, i)
    requires forall j :: from <= j < i ==> !OccursAt(s, p, j)
    ensures FindFrom(s, p, from) == Some(i)
    decreases i - from
  {
    if from < i {
      FindFromFirst(s, p, from + 1, i);
    }
  }

  // ---------------------------------------------------------------------
  // A publish run.

  /** What a run does outside the script, in order. */
  datatype Effect =
    | NpmLink
    | NpmConfigRegistry(url: string)
    | NpmPublish(registry: Option<string>)
    | ReplaceTree(dest: string)
    | CopyBundle(dest: string)
    | InstallInto(target: string)
    | WriteNpmrc(line: string)

  datatype Outcome = Outcome(ok: bool, effects: seq<Effect>)

  /** The inputs of a run: the coordinates file, whether the bundle path
      was given as an absolute path, whether `tar` extracts the bundle
      found at that path, the environment, the home directory, whether
      the npm command of the mode succeeded, and the `package.json` of
      each workspace target. */
  datatype Run = Run(coords: string, bundleAbsolute: bool, archiveOk: bool,
                     env: map<string, string>, home: string,
                     npmOk: bool, packageFiles: map<string, PackageFile>)

  /** Whether `tar xzf <bundle>`, run inside the fresh temporary directory,
      extracts the bundle. The generated scripts first make the path
      absolute with `os.path.abspath`; the older script passes it as
      given, so a relative path is looked up inside the empty temporary
      directory and names nothing there. */
  predicate Extracts(run: Run, script: Script) {
    run.archiveOk && (script != LegacyNpm || run.bundleAbsolute)
  }

  function Installs(targets: seq<string>): (r: seq<Effect>)
    ensures |r| == |targets| && forall k :: 0 <= k < |r| ==> r[k] == InstallInto(targets[k])
  {
    if targets == [] then [] else [InstallInto(targets[0])] + Installs(targets[1..])
  }

  /** What one mode does for the package `name@version`. */
  function ModeOutcome(mode: Mode, name: string, version: string, run: Run): Outcome {
    match mode
    case Skip => Outcome(true, [])
    case Link => Outcome(run.npmOk, [NpmLink])
    case LocalRegistry =>
      var url := EnvGet(run.env, "NPM_REGISTRY", "http://localhost:4873");
      Outcome(run.npmOk, [NpmConfigRegistry(url), NpmPublish(None)])
    case FileCopy => Outcome(true, [ReplaceTree(FileDest(run.home, name, version))])
    case Pack => Outcome(true, [CopyBundle(PackDest(run.home, name, version))])
    case Workspace =>
      var r := RunInstalls(ParseTargets(EnvGet(run.env, "JS_TARGETS", "")), run.packageFiles);
      Outcome(r.allOk && !r.raised, Installs(r.installed))
    case Registry =>
      var url := EnvGet(run.env, "NPM_REGISTRY_URL", "");
      var token := RegistryToken(run.env);
      if url == "" || token == "" then Outcome(false, [])
      else Outcome(run.npmOk, [WriteNpmrc(NpmrcLine(url, token)), NpmPublish(Some(url))])
  }

  /** `publish_npm_package` of a script; the proto-loader publisher's
      `publish_proto_loader_package` takes the same steps in its own modes. */
  function PublishOutcome(run: Run, script: Script): Outcome {
    match ParseCoords(run.coords)
    case None => Outcome(false, [])
    case Some((name, version)) =>
      if !Extracts(run, script) then Outcome(false, [])
      else match SelectMode(run.env, script)
        case None => Outcome(false, [])
        case Some(mode) => ModeOutcome(mode, name, version, run)
  }

  /** Failing coordinates, a failed extraction or an unsupported mode end
      the run before anything else happens. */
  lemma EarlyFailures(run: Run, script: Script)
    requires ParseCoords(run.coords).None? || !Extracts(run, script) || SelectMode(run.env, script).None?
    ensures PublishOutcome(run, script) == Outcome(false, [])
  {
  }

  /** A supported mode, once the coordinates parse and the bundle extracts,
      decides the outcome alone. */
  lemma PublishByMode(run: Run, script: Script, mode: Mode)
    requires ParseCoords(run.coords).Some? && Extracts(run, script)
    requires SelectMode(run.env, script) == Some(mode)
    ensures PublishOutcome(run, script) ==
      ModeOutcome(mode, ParseCoords(run.coords).value.0, ParseCoords(run.coords).value.1, run)
  {
  }

  /** Skipping succeeds and does nothing. */
  lemma SkipDoesNothing(name: string, version: string, run: Run)
    ensures ModeOutcome(Skip, name, version, run) == Outcome(true, [])
  {
  }

  /** File mode always succeeds and replaces the tree under the flattened
      name and version. */
  lemma FileCopyReplacesTree(name: string, version: string, run: Run)
    ensures ModeOutcome(FileCopy, name, version, run) == Outcome(true, [ReplaceTree(FileDest(run.home, name, version))])
  {
  }

  /** Registry mode publishes only with a URL and a token, writing the
      `.npmrc` line before publishing. */
  lemma RegistryNeedsUrlAndToken(name: string, version: string, run: Run)
    ensures var url := EnvGet(run.env, "NPM_REGISTRY_URL", "");
      var out := ModeOutcome(Registry, name, version, run);
      (url == "" || RegistryToken(run.env) == "" ==> out == Outcome(false, [])) &&
      (url != "" && RegistryToken(run.env) != "" ==>
        out == Outcome(run.npmOk, [WriteNpmrc(NpmrcLine(url, RegistryToken(run.env))), NpmPublish(Some(url))]))
  {
  }

  /** Workspace mode succeeds exactly when no target with a `package.json`
      fails its install. */
  lemma WorkspaceOkIff(name: string, version: string, run: Run)
    ensures var targets := ParseTargets(EnvGet(run.env, "JS_TARGETS", ""));
      ModeOutcome(Workspace, name, version, run).ok <==>
        forall i :: 0 <= i < |targets| ==> !InstallFails(run.packageFiles, targets[i])
  {
    RunInstallsOkIff(ParseTargets(EnvGet(run.env, "JS_TARGETS", "")), run.packageFiles);
  }

  /** Given an absolute bundle path, the older publisher behaves as the
      generated one on its four modes and fails, doing nothing, on the
      three it lacks. */
  lemma LegacyIsGeneratedRestricted(run: Run)
    ensures var m := SelectMode(run.env, GeneratedNpm);
      run.bundleAbsolute && m.Some? && Supports(LegacyNpm, m.value) ==>
        PublishOutcome(run, LegacyNpm) == PublishOutcome(run, GeneratedNpm)
    ensures var m := SelectMode(run.env, GeneratedNpm);
      m.Some? && !Supports(LegacyNpm, m.value) ==> PublishOutcome(run, LegacyNpm) == Outcome(false, [])
  {
    var m := SelectMode(run.env, GeneratedNpm);
    if m.Some? && Supports(LegacyNpm, m.value) {
      assert SelectMode(run.env, LegacyNpm) == m;
    }
    if m.Some? && !Supports(LegacyNpm, m.value) {
      assert SelectMode(run.env, LegacyNpm) == None;
    }
  }

  /** The older publisher fails, doing nothing, on every relative bundle
      path, whatever the archive, the coordinates and the mode. */
  lemma LegacyRelativeBundleFails(run: Run)
    requires !run.bundleAbsolute
    ensures PublishOutcome(run, LegacyNpm) == Outcome(false, [])
  {
  }

  /** The generated scripts do not depend on how the bundle path was
      written: a relative path publishes as its absolute form does. */
  lemma RelativeBundleAsAbsolute(run: Run, script: Script)
    requires script != LegacyNpm
    ensures PublishOutcome(run, script) == PublishOutcome(run.(bundleAbsolute := true), script)
  {
  }

  /** A relative path to a good bundle, with no mode set and a working
      `npm link`: the generated publisher links the package and succeeds,
      the older one fails at extraction. */
  lemma RelativeBundleDiverges(run: Run)
    requires !run.bundleAbsolute && run.archiveOk && run.npmOk
    requires ParseCoords(run.coords).Some? && "NPM_PUBLISH_MODE" !in run.env
    ensures PublishOutcome(run, GeneratedNpm) == Outcome(true, [NpmLink])
    ensures PublishOutcome(run, LegacyNpm) == Outcome(false, [])
  {
    DefaultModes(run.env);
  }

  /** `sys.exit(0 if success else 1)`. */
  function ExitCode(ok: bool): int {
    if ok then 0 else 1
  }

  // ---------------------------------------------------------------------
  // The scripts' dispatch, proved against the outcome above.

  /** The workspace loop with its `all_ok` flag. */
  method InstallAll(targets: seq<string>, files: map<string, PackageFile>) returns (run: InstallRun)
    ensures run == RunInstalls(targets, files)
  {
    var installed: seq<string> := [];
    var allOk := true;
    var i := 0;
    while i < |targets|
      invariant 0 <= i <= |targets|
      invariant RunInstalls(targets[..i], files) == InstallRun(installed, allOk, false)
    {
      var t := targets[i];
      assert targets[..i + 1][..i] == targets[..i];
      if HasPackageJson(files, t) {
        installed := installed + [t];
        var added := AddWorkspaceEntry(files[t], DefaultGlob);
        if added.Raised? {
          assert RunInstalls(targets[..i + 1], files) == InstallRun(installed, allOk, true);
          RaisedStays(targets, i + 1, files);
          return InstallRun(installed, allOk, true);
        }
        if !added.Written? {
          allOk := false;
        }
      }
      i := i + 1;
    }
    assert targets[..|targets|] == targets;
    run := InstallRun(installed, allOk, false);
  }

  /** Once an install has raised, the later targets change nothing. */
  lemma {:induction false} RaisedStays(targets: seq<string>, n: nat, files: map<string, PackageFile>)
    requires n <= |targets| && RunInstalls(targets[..n], files).raised
    ensures RunInstalls(targets, files) == RunInstalls(targets[..n], files)
    decreases |targets| - n
  {
    if n < |targets| {
      assert targets[..n + 1][..n] == targets[..n];
      RaisedStays(targets, n + 1, files);
    } else {
      assert targets[..n] == targets;
    }
  }

  /** One mode's branch of the dispatch. */
  method RunMode(mode: Mode, name: string, version: string, run: Run) returns (out: Outcome)
    ensures out == ModeOutcome(mode, name, version, run)
  {
    match mode {
      case Skip =>
        out := Outcome(true, []);
      case Link =>
        out := Outcome(run.npmOk, [NpmLink]);
      case LocalRegistry =>
        var url := EnvGet(run.env, "NPM_REGISTRY", "http://localhost:4873");
        out := Outcome(run.npmOk, [NpmConfigRegistry(url), NpmPublish(None)]);
      case FileCopy =>
        out := Outcome(true, [ReplaceTree(FileDest(run.home, name, version))]);
      case Pack =>
        out := Outcome(true, [CopyBundle(PackDest(run.home, name, version))]);
      case Workspace =>
        var targetsText := EnvGet(run.env, "JS_TARGETS", "");
        var r := InstallAll(ParseTargets(targetsText), run.packageFiles);
        out := Outcome(r.allOk && !r.raised, Installs(r.installed));
      case Registry =>
        var url := EnvGet(run.env, "NPM_REGISTRY_URL", "");
        var token := RegistryToken(run.env);
        if url == "" {
          return Outcome(false, []);
        }
        if token == "" {
          return Outcome(false, []);
        }
        out := Outcome(run.npmOk, [WriteNpmrc(NpmrcLine(url, token)), NpmPublish(Some(url))]);
    }
  }

  /** `publish_npm_package`, or `publish_proto_loader_package`. */
  method Publish(run: Run, script: Script) returns (out: Outcome)
    ensures out == PublishOutcome(run, script)
  {
    var coords := ParseCoords(run.coords);
    if coords.None? {
      return Outcome(false, []);
    }
    var (name, version) := coords.value;
    if !Extracts(run, script) {
      return Outcome(false, []);
    }
    var mode := SelectMode(run.env, script);
    if mode.None? {
      return Outcome(false, []);
    }
    out := RunMode(mode.value, name, version, run);
  }
}
