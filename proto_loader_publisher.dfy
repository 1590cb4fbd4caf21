/** The proto-loader publisher. In build mode it lays out an npm package
    holding raw `.proto` files under `package/proto/`, a `package.json`,
    an `index.js` exporting the proto root and an `index.d.ts`; in publish
    mode it hands the extracted package to the same modes as the npm
    publishers, with `file` as its default. The temporary directory is a
    class whose `tree` maps paths under it to their contents. */
module ProtoLoaderPublisher {
  import opened Text
  import opened Json
  import opened BazelPaths
  import opened VersionPlaceholder
  import opened NpmPublisher

  // ---------------------------------------------------------------------
  // Package layout.

  /** A proto entry: `src=dest` split at the first `=`, otherwise the
      source path used verbatim as the destination. */
  function LoaderSpec(spec: string): (r: ProtoSpec)
    ensures HasChar(spec, '=') ==> SplitExplicit(spec) == Some(r)
    ensures !HasChar(spec, '=') ==> r == ProtoSpec(spec, spec)
  {
    match SplitExplicit(spec)
    case Some(p) => p
    case None => ProtoSpec(spec, spec)
  }

  /** `os.path.join(dir, name)`: an absolute `name` replaces `dir`. */
  function JoinPath(dir: string, name: string): (r: string)
    ensures StartsWith(name, "/") ==> r == name
    ensures !StartsWith(name, "/") ==> r == dir + "/" + name
  {
    if StartsWith(name, "/") then name else dir + "/" + name
  }

  const ProtoDir := "package/proto"
  const PackageJsonPath := "package/package.json"
  const IndexJsPath := "package/index.js"
  const IndexDtsPath := "package/index.d.ts"

  /** Where a proto entry is copied to: `dest` joined under `package/proto`. */
  function Destination(p: ProtoSpec): string {
    JoinPath(ProtoDir, p.dest)
  }

  /** The generated text files, rendered by `Render`. */
  datatype Template = IndexJsFor(packageName: string) | IndexDtsFile

  datatype FileContent = CopyOf(src: string) | Rendered(template: Template) | JsonFile(doc: Json)

  /** The entries as the loop reads them. */
  function ParseSpecs(specs: seq<string>): (r: seq<ProtoSpec>)
    ensures |r| == |specs| && forall k :: 0 <= k < |specs| ==> r[k] == LoaderSpec(specs[k])
  {
    if specs == [] then [] else [LoaderSpec(specs[0])] + ParseSpecs(specs[1..])
  }

  /** The tree after copying protos in order, and whether a copy raised
      because its source is missing (which stops the loop). */
  datatype Copying = Copying(tree: map<string, FileContent>, failed: bool)

  function CopyProtos(entries: seq<ProtoSpec>, existing: set<string>): Copying {
    if entries == [] then Copying(map[], false) else
    var before := CopyProtos(entries[..|entries| - 1], existing);
    var p := entries[|entries| - 1];
    if before.failed then before
    else if p.src !in existing then Copying(before.tree, true)
    else Copying(before.tree[Destination(p) := CopyOf(p.src)], false)
  }

  /** The copy fails exactly when some source is missing. */
  lemma {:induction false} CopyProtosFails(entries: seq<ProtoSpec>, existing: set<string>)
    ensures CopyProtos(entries, existing).failed <==> exists k :: 0 <= k < |entries| && entries[k].src !in existing
  {
    if entries != [] {
      var front := entries[..|entries| - 1];
      CopyProtosFails(front, existing);
      assert forall k :: 0 <= k < |front| ==> front[k] == entries[k];
    }
  }

  /** A completed copy holds exactly the entries' destinations. */
  lemma {:induction false} CopyProtosPaths(entries: seq<ProtoSpec>, existing: set<string>)
    ensures var c := CopyProtos(entries, existing);
      !c.failed ==> forall path :: path in c.tree <==> exists k :: 0 <= k < |entries| && Destination(entries[k]) == path
  {
    if entries != [] {
      var front := entries[..|entries| - 1];
      CopyProtosPaths(front, existing);
      assert forall k :: 0 <= k < |front| ==> front[k] == entries[k];
    }
  }

  /** In a completed copy each path holds the source of the last entry
      copied there. */
  lemma {:induction false} CopyProtosLastWins(entries: seq<ProtoSpec>, existing: set<string>, k: int)
    requires 0 <= k < |entries|
    requires forall j :: k < j < |entries| ==> Destination(entries[j]) != Destination(entries[k])
    ensures var c := CopyProtos(entries, existing);
      !c.failed ==> Destination(entries[k]) in c.tree && c.tree[Destination(entries[k])] == CopyOf(entries[k].src)
  {
    var front := entries[..|entries| - 1];
    if k < |entries| - 1 {
      assert forall j :: k < j < |front| ==> front[j] == entries[j];
      CopyProtosLastWins(front, existing, k);
    }
  }

  /** The manifest of the package. */
  function LoaderPackageJson(name: string, version: string): seq<Field> {
    [ Field("name", Str(name)),
      Field("version", Str(version)),
      Field("description", Str("Raw proto files for " + name + " - use with @grpc/proto-loader")),
      Field("main", Str("index.js")),
      Field("types", Str("index.d.ts")),
      Field("files", Arr([Str("proto/"), Str("index.js"), Str("index.d.ts")])),
      Field("peerDependencies", Obj([Field("@grpc/grpc-js", Str(">=1.8.0")), Field("@grpc/proto-loader", Str(">=0.7.0"))])),
      Field("keywords", Arr([Str("protobuf"), Str("grpc"), Str("proto-loader")])) ]
  }

  /** The package names itself and its version. */
  lemma LoaderPackageJsonNames(name: string, version: string)
    ensures var m := LoaderPackageJson(name, version);
      Lookup(m, "name") == Some(Str(name)) && Lookup(m, "version") == Some(Str(version))
  {
    var m := LoaderPackageJson(name, version);
    LookupAt(m, 0, "name");
    LookupAt(m, 1, "version");
  }

  /** The entry point is the helper module. */
  lemma LoaderPackageJsonMain(name: string, version: string)
    ensures Lookup(LoaderPackageJson(name, version), "main") == Some(Str("index.js"))
  {
    var m := LoaderPackageJson(name, version);
    assert "name"[0] != "main"[0];
    assert |"version"| != |"main"|;
    assert |"description"| != |"main"|;
    LookupAt(m, 3, "main");
  }

  /** The type declarations are `index.d.ts`. */
  lemma LoaderPackageJsonTypes(name: string, version: string)
    ensures Lookup(LoaderPackageJson(name, version), "types") == Some(Str("index.d.ts"))
  {
    var m := LoaderPackageJson(name, version);
    assert |"name"| != |"types"|;
    assert |"version"| != |"types"|;
    assert |"description"| != |"types"|;
    assert |"main"| != |"types"|;
    LookupAt(m, 4, "types");
  }

  /** The published files and the two peer dependencies. */
  lemma LoaderPackageJsonFiles(name: string, version: string)
    ensures var m := LoaderPackageJson(name, version);
      Lookup(m, "files") == Some(Arr([Str("proto/"), Str("index.js"), Str("index.d.ts")])) &&
      Lookup(m, "peerDependencies") ==
        Some(Obj([Field("@grpc/grpc-js", Str(">=1.8.0")), Field("@grpc/proto-loader", Str(">=0.7.0"))]))
  {
    var m := LoaderPackageJson(name, version);
    LookupAt(m, 5, "files");
    LookupAt(m, 6, "peerDependencies");
  }

  /** The manifest has each key once. */
  lemma LoaderPackageJsonUnique(name: string, version: string)
    ensures UniqueKeys(LoaderPackageJson(name, version))
  {
  }

  // ---------------------------------------------------------------------
  // The helper module.

  function IndexJsOpening(): string {
    "\"use strict\";\n" +
    "const path = require(\"path\");\n" +
    "\n" +
    "/**\n" +
    " * Absolute path to the " + "proto/ directory in this " + "package.\n" +
    " * Use as an includeDirs " + "entry for " + "@grpc/proto-loader.\n" +
    " *\n" +
    " * @example\n"
  }

  const RootImport := " * const { PROTO_ROOT } = " + "require(\""
  const HelperImport := " * const { getProtoPath } = " + "require(\""
  const ImportEnd := "\");\n"

  function IndexJsMiddle(): string {
    " * const packageDef = " + "protoLoader.loadSync(" + "\"example/service/v1/" + "messages.proto\", {\n" +
    " *   includeDirs: " + "[PROTO_ROOT],\n" +
    " * });\n" +
    " */\n" +
    "const PROTO_ROOT = " + "path.join(__dirname, " + "\"proto\");\n" +
    "\n" +
    "/**\n" +
    " * Returns the absolute " + "path to a proto file within " + "this package.\n" +
    " *\n" +
    " * @param {...string} paths " + "- Path segments relative to " + "proto root\n" +
    " * @returns {string} " + "Absolute path to the proto " + "file\n" +
    " *\n" +
    " * @example\n"
  }

  function IndexJsClosing(): string {
    " * const protoPath = " + "getProtoPath(\"example\", " + "\"service\", \"v1\", " + "\"messages.proto\");\n" +
    " */\n" +
    "function " + "getProtoPath(...paths) {\n" +
    "  return " + "path.join(PROTO_ROOT, " + "...paths);\n" +
    "}\n" +
    "\n" +
    "module.exports = { " + "PROTO_ROOT, getProtoPath " + "};\n"
  }

  /** A three-piece template with `name` placed between the pieces. */
  function SubstituteTwice(pieces: seq<string>, name: string): string
    requires |pieces| == 3
  {
    pieces[0] + name + pieces[1] + name + pieces[2]
  }

  /** The name is found between the text around its first placement. */
  lemma SubstituteTwiceAt(pieces: seq<string>, name: string, open: string, close: string)
    requires |pieces| == 3 && EndsWith(pieces[0], open) && StartsWith(pieces[1], close)
    ensures OccursAt(SubstituteTwice(pieces, name), open + name + close, |pieces[0]| - |open|)
  {
    var s := SubstituteTwice(pieces, name);
    var i := |pieces[0]| - |open|;
    var p := open + name + close;
    assert s == pieces[0] + name + pieces[1] + (name + pieces[2]);
    forall j | 0 <= j < |p| ensures s[i + j] == p[j] {
      if j < |open| {
        assert s[i + j] == pieces[0][i + j];
      } else if j < |open| + |name| {
        assert s[i + j] == name[j - |open|];
      } else {
        assert s[i + j] == pieces[1][j - |open| - |name|];
      }
    }
  }

  /** Filling a template determines the name. */
  lemma SubstituteTwiceInjective(pieces: seq<string>, n1: string, n2: string)
    requires |pieces| == 3 && SubstituteTwice(pieces, n1) == SubstituteTwice(pieces, n2)
    ensures n1 == n2
  {
    var h := |pieces[0]|;
    assert |n1| == |n2|;
    assert SubstituteTwice(pieces, n1)[h..h + |n1|] == n1;
    assert SubstituteTwice(pieces, n2)[h..h + |n2|] == n2;
  }

  function IndexJsPieces(): (r: seq<string>)
    ensures |r| == 3
  {
    [IndexJsOpening() + RootImport, ImportEnd + IndexJsMiddle() + HelperImport, ImportEnd + IndexJsClosing()]
  }

  /** `index.js` with the package name substituted into both examples. */
  function IndexJs(name: string): string {
    SubstituteTwice(IndexJsPieces(), name)
  }

  /** The first example requires the package by its name. */
  lemma IndexJsRequiresPackage(name: string)
    ensures OccursAt(IndexJs(name), "require(\"" + name + "\")", |IndexJsPieces()[0]| - 9)
  {
    var pieces := IndexJsPieces();
    var open := "require(\"";
    assert RootImport[|RootImport| - 9..] == open;
    assert pieces[0][|pieces[0]| - 9..] == RootImport[|RootImport| - 9..];
    assert ImportEnd[..2] == "\")";
    assert pieces[1][..2] == ImportEnd[..2];
    SubstituteTwiceAt(pieces, name, open, "\")");
  }

  /** Different package names give different modules. */
  lemma IndexJsInjective(n1: string, n2: string)
    requires IndexJs(n1) == IndexJs(n2)
    ensures n1 == n2
  {
    SubstituteTwiceInjective(IndexJsPieces(), n1, n2);
  }

  function IndexDts(): string {
    "/**\n" +
    " * Absolute path to the " + "proto/ directory in this " + "package.\n" +
    " * Use as an includeDirs " + "entry for " + "@grpc/proto-loader.\n" +
    " */\n" +
    "export declare const " + "PROTO_ROOT: string;\n" +
    "\n" +
    "/**\n" +
    " * Returns the absolute " + "path to a proto file within " + "this package.\n" +
    " * @param paths - Path " + "segments relative to proto " + "root\n" +
    " * @returns Absolute path " + "to the proto file\n" +
    " */\n" +
    "export declare function " + "getProtoPath(...paths: " + "string[]): string;\n"
  }

  /** The text of a generated file. */
  function Render(t: Template): string {
    match t
    case IndexJsFor(name) => IndexJs(name)
    case IndexDtsFile => IndexDts()
  }

  /** The finished tree: the protos, then the three generated files. */
  function PackageTree(name: string, version: string, specs: seq<string>, existing: set<string>): Option<map<string, FileContent>> {
    var c := CopyProtos(ParseSpecs(specs), existing);
    if c.failed then None
    else Some(c.tree[PackageJsonPath := JsonFile(Obj(LoaderPackageJson(name, version)))]
                    [IndexJsPath := Rendered(IndexJsFor(name))]
                    [IndexDtsPath := Rendered(IndexDtsFile)])
  }

  /** A finished tree holds the generated files and every proto entry. */
  lemma PackageTreeContents(name: string, version: string, specs: seq<string>, existing: set<string>)
    requires forall k :: 0 <= k < |specs| ==> LoaderSpec(specs[k]).src in existing
    ensures PackageTree(name, version, specs, existing).Some?
    ensures var t := PackageTree(name, version, specs, existing).value;
      t[PackageJsonPath] == JsonFile(Obj(LoaderPackageJson(name, version))) &&
      t[IndexJsPath] == Rendered(IndexJsFor(name)) && t[IndexDtsPath] == Rendered(IndexDtsFile) &&
      forall k :: 0 <= k < |specs| ==> Destination(LoaderSpec(specs[k])) in t
  {
    var entries := ParseSpecs(specs);
    CopyProtosFails(entries, existing);
    CopyProtosPaths(entries, existing);
    var c := CopyProtos(entries, existing);
    forall k | 0 <= k < |specs| ensures Destination(entries[k]) in c.tree {
      assert exists j :: 0 <= j < |entries| && Destination(entries[j]) == Destination(entries[k]);
    }
  }

  /** A proto entry without `=` lands under `package/proto/` at its own
      source path, unchanged. */
  lemma PlainEntryKeepsPath(spec: string)
    requires !HasChar(spec, '=') && !StartsWith(spec, "/")
    ensures Destination(LoaderSpec(spec)) == "package/proto/" + spec
  {
  }

  /** The temporary directory of `create_proto_loader_package`. */
  class StagingDir {
    var tree: map<string, FileContent>

    constructor ()
      ensures tree == map[]
    {
      tree := map[];
    }

    /** Copies the protos in order and writes the generated files; `ok`
        is false where a copy raised, and the tree then holds the copies
        made before it. */
    method Create(name: string, version: string, specs: seq<string>, existing: set<string>) returns (ok: bool)
      requires tree == map[]
      modifies this
      ensures ok <==> PackageTree(name, version, specs, existing).Some?
      ensures ok ==> tree == PackageTree(name, version, specs, existing).value
      ensures !ok ==> tree == CopyProtos(ParseSpecs(specs), existing).tree
    {
      ghost var entries := ParseSpecs(specs);
      var i := 0;
      while i < |specs|
        invariant 0 <= i <= |specs|
        invariant CopyProtos(entries[..i], existing) == Copying(tree, false)
      {
        assert entries[..i + 1][..i] == entries[..i];
        var p := LoaderSpec(specs[i]);
        assert entries[..i + 1][i] == p;
        if p.src !in existing {
          assert CopyProtos(entries[..i + 1], existing) == Copying(tree, true);
          CopyFailureStays(entries, i + 1, existing);
          return false;
        }
        tree := tree[JoinPath(ProtoDir, p.dest) := CopyOf(p.src)];
        i := i + 1;
      }
      assert entries[..|specs|] == entries;
      tree := tree[PackageJsonPath := JsonFile(Obj(LoaderPackageJson(name, version)))];
      tree := tree[IndexJsPath := Rendered(IndexJsFor(name))];
      tree := tree[IndexDtsPath := Rendered(IndexDtsFile)];
      ok := true;
    }
  }

  /** Once a copy has raised, later entries change nothing. */
  lemma {:induction false} CopyFailureStays(entries: seq<ProtoSpec>, n: nat, existing: set<string>)
    requires n <= |entries| && CopyProtos(entries[..n], existing).failed
    ensures CopyProtos(entries, existing) == CopyProtos(entries[..n], existing)
    decreases |entries| - n
  {
    if n < |entries| {
      assert entries[..n + 1][..n] == entries[..n];
      CopyFailureStays(entries, n + 1, existing);
    } else {
      assert entries[..n] == entries;
    }
  }

  // ---------------------------------------------------------------------
  // Publishing.

  /** The proto-loader publisher's modes act as the generated npm
      publisher's do; only the default and the set of known modes differ. */
  lemma PublishAsNpm(run: Run)
    requires "NPM_PUBLISH_MODE" in run.env
    requires SelectMode(run.env, ProtoLoader).Some?
    ensures PublishOutcome(run, ProtoLoader) == PublishOutcome(run, GeneratedNpm)
  {
    assert SelectMode(run.env, GeneratedNpm) == SelectMode(run.env, ProtoLoader);
  }

  /** With no mode set the package is copied to the `file` destination. */
  lemma DefaultCopiesFile(run: Run)
    requires "NPM_PUBLISH_MODE" !in run.env
    requires ParseCoords(run.coords).Some? && Extracts(run, ProtoLoader)
    ensures var coords := ParseCoords(run.coords).value;
      PublishOutcome(run, ProtoLoader) == Outcome(true, [ReplaceTree(FileDest(run.home, coords.0, coords.1))])
  {
    var coords := ParseCoords(run.coords).value;
    DefaultModes(run.env);
    PublishByMode(run, ProtoLoader, FileCopy);
    FileCopyReplacesTree(coords.0, coords.1, run);
  }

  /** `local-registry` and `pack` are unknown here and fail. */
  lemma NpmOnlyModesFail(run: Run)
    requires EnvGet(run.env, "NPM_PUBLISH_MODE", "file") in {"local-registry", "pack"}
    ensures PublishOutcome(run, ProtoLoader) == Outcome(false, [])
  {
    assert SelectMode(run.env, ProtoLoader).None?;
  }

  // ---------------------------------------------------------------------
  // Command line.

  /** The parsed command line: `--output`, `--package-name`, `--version`
      (default `1.0.0`), `--proto-sources`, and the remaining arguments. */
  datatype Invocation = Invocation(output: Option<string>, packageName: string, versionArg: string,
                                   sources: seq<string>, remaining: seq<string>)

  datatype Action =
    | Build(output: string, name: string, version: string, sources: seq<string>)
    | PublishBundle(bundle: string, coords: string)
    | Usage

  /** `main`: a non-empty `--output` builds, with `VERSION` from the
      environment taking precedence over `--version`; otherwise two
      remaining arguments publish and anything else exits with status 1. */
  function SelectAction(inv: Invocation, env: map<string, string>): (r: Action)
    ensures r.Build? <==> inv.output.Some? && inv.output.value != ""
    ensures r.PublishBundle? ==> |inv.remaining| >= 2 && r.bundle == inv.remaining[0] && r.coords == inv.remaining[1]
  {
    if inv.output.Some? && inv.output.value != "" then
      Build(inv.output.value, inv.packageName, EnvGet(env, "VERSION", inv.versionArg), inv.sources)
    else if |inv.remaining| > 1 && inv.remaining[1] != "" then
      PublishBundle(inv.remaining[0], inv.remaining[1])
    else Usage
  }

  /** Publishing without a coordinates argument is a usage error. */
  lemma MissingCoordsIsUsage(inv: Invocation, env: map<string, string>)
    requires inv.output.None? || inv.output.value == ""
    requires |inv.remaining| <= 1
    ensures SelectAction(inv, env) == Usage
  {
  }

  /** The build version is `VERSION` when set, else `--version`. */
  lemma BuildVersion(inv: Invocation, env: map<string, string>)
    requires inv.output.Some? && inv.output.value != ""
    ensures SelectAction(inv, env).version == if "VERSION" in env then env["VERSION"] else inv.versionArg
  {
  }

  /** The exit status: a build exits 0 when every proto was copied, a
      publish when its mode succeeded, a usage error with 1. */
  function ExitStatus(action: Action, existing: set<string>, run: Run): (code: int)
    ensures code == 0 || code == 1
    ensures action.Usage? ==> code == 1
    ensures action.Build? ==>
      (code == 0 <==> PackageTree(action.name, action.version, action.sources, existing).Some?)
    ensures action.PublishBundle? ==> (code == 0 <==> PublishOutcome(run, ProtoLoader).ok)
  {
    match action
    case Build(_, name, version, sources) => ExitCode(PackageTree(name, version, sources, existing).Some?)
    case PublishBundle(_, _) => ExitCode(PublishOutcome(run, ProtoLoader).ok)
    case Usage => 1
  }
}
