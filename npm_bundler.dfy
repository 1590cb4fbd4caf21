/** The npm bundler: `package.json` for the three module formats, the
    node/web split of the generated JavaScript, the `.cjs`/`.mjs`
    wrappers, the index files, and the package directory name. The files
    on disk are a map from path to text given as a parameter; the package
    directory is a map from relative path to what each file holds. */
module NpmBundler {
  import opened Text
  import opened Json
  import opened BazelPaths

  // ---------------------------------------------------------------------
  // Package directory name.

  /** A scoped name loses its `@` and has `/` replaced by `-`. */
  function PkgDirName(packageName: string): string {
    if StartsWith(packageName, "@") then ReplaceChar(RemoveChar(packageName, '@'), '/', '-')
    else packageName
  }

  lemma RemoveCharFree(s: string, a: char)
    requires !HasChar(s, a)
    ensures RemoveChar(s, a) == s
  {
    if |s| > 0 {
      assert s[0] != a;
      forall i | 0 <= i < |s[1..]| ensures s[1..][i] != a {
        assert s[1..][i] == s[i + 1];
      }
      RemoveCharFree(s[1..], a);
    }
  }

  /** Dropping the `@` of `@scope/pkg`. */
  lemma RemoveScopeAt(scope: string, pkg: string)
    requires !HasChar(scope, '@') && !HasChar(pkg, '@')
    ensures RemoveChar("@" + scope + "/" + pkg, '@') == scope + "/" + pkg
  {
    var rest := scope + "/" + pkg;
    assert "@" + scope + "/" + pkg == ['@'] + rest;
    RemoveCharCons('@', rest, '@');
    NoAtInName(scope, pkg);
    RemoveCharFree(rest, '@');
  }

  lemma NoAtInName(scope: string, pkg: string)
    requires !HasChar(scope, '@') && !HasChar(pkg, '@')
    ensures !HasChar(scope + "/" + pkg, '@')
  {
    assert !HasChar("/", '@');
    HasCharConcat(scope, "/", '@');
    HasCharConcat(scope + "/", pkg, '@');
  }

  lemma RemoveCharCons(c: char, rest: string, a: char)
    ensures RemoveChar([c] + rest, a) == (if c == a then "" else [c]) + RemoveChar(rest, a)
  {
    assert ([c] + rest)[1..] == rest;
  }

  /** Replacing the single `/` of `scope/pkg`. */
  lemma ReplaceScopeSlash(scope: string, pkg: string)
    requires !HasChar(scope, '/') && !HasChar(pkg, '/')
    ensures ReplaceChar(scope + "/" + pkg, '/', '-') == scope + "-" + pkg
  {
    var m := scope + "/" + pkg;
    var want := scope + "-" + pkg;
    var r := ReplaceChar(m, '/', '-');
    forall i | 0 <= i < |m| ensures r[i] == want[i] {
      if i < |scope| {
        assert m[i] == scope[i] && want[i] == scope[i];
      } else if i > |scope| {
        assert m[i] == pkg[i - |scope| - 1] && want[i] == pkg[i - |scope| - 1];
      }
    }
  }

  /** `@scope/pkg` becomes `scope-pkg`; an unscoped name is kept. */
  lemma ScopedDirName(scope: string, pkg: string)
    requires !HasChar(scope, '@') && !HasChar(scope, '/') && !HasChar(pkg, '@') && !HasChar(pkg, '/')
    ensures PkgDirName("@" + scope + "/" + pkg) == scope + "-" + pkg
    ensures !StartsWith(pkg, "@") ==> PkgDirName(pkg) == pkg
  {
    assert ("@" + scope + "/" + pkg)[..1] == "@";
    RemoveScopeAt(scope, pkg);
    ReplaceScopeSlash(scope, pkg);
  }

  // ---------------------------------------------------------------------
  // Node/web classification.

  /** A generated file is for the browser when its path names gRPC-Web. */
  predicate IsWebFile(path: string) {
    Contains(path, "grpc_web") || Contains(path, "grpc-web")
  }

  /** Existing files that are not for the browser, in argument order. */
  function NodeFiles(jsFiles: seq<string>, existing: set<string>): seq<string> {
    if jsFiles == [] then [] else
    var last := jsFiles[|jsFiles| - 1];
    NodeFiles(jsFiles[..|jsFiles| - 1], existing) + (if last in existing && !IsWebFile(last) then [last] else [])
  }

  /** Existing files for the browser, in argument order. */
  function WebFiles(jsFiles: seq<string>, existing: set<string>): seq<string> {
    if jsFiles == [] then [] else
    var last := jsFiles[|jsFiles| - 1];
    WebFiles(jsFiles[..|jsFiles| - 1], existing) + (if last in existing && IsWebFile(last) then [last] else [])
  }

  /** The files that are skipped because they do not exist. */
  function MissingFiles(jsFiles: seq<string>, existing: set<string>): seq<string> {
    if jsFiles == [] then [] else
    var last := jsFiles[|jsFiles| - 1];
    MissingFiles(jsFiles[..|jsFiles| - 1], existing) + (if last !in existing then [last] else [])
  }

  /** Node files, web files and missing files partition the arguments:
      every argument lands in exactly one of them, once. */
  lemma {:induction false} ClassesPartition(jsFiles: seq<string>, existing: set<string>)
    ensures multiset(NodeFiles(jsFiles, existing)) + multiset(WebFiles(jsFiles, existing))
      + multiset(MissingFiles(jsFiles, existing)) == multiset(jsFiles)
    ensures forall f :: f in NodeFiles(jsFiles, existing) ==> f in existing && !IsWebFile(f)
    ensures forall f :: f in WebFiles(jsFiles, existing) ==> f in existing && IsWebFile(f)
  {
    ClassesCount(jsFiles, existing);
    ClassesSound(jsFiles, existing);
  }

  lemma {:induction false} ClassesCount(jsFiles: seq<string>, existing: set<string>)
    ensures multiset(NodeFiles(jsFiles, existing)) + multiset(WebFiles(jsFiles, existing))
      + multiset(MissingFiles(jsFiles, existing)) == multiset(jsFiles)
  {
    if jsFiles != [] {
      var init, last := jsFiles[..|jsFiles| - 1], jsFiles[|jsFiles| - 1];
      ClassesCount(init, existing);
      assert jsFiles == init + [last];
      assert multiset(jsFiles) == multiset(init) + multiset{last};
      var node, web, missing := NodeFiles(init, existing), WebFiles(init, existing), MissingFiles(init, existing);
      if last !in existing {
        assert multiset(MissingFiles(jsFiles, existing)) == multiset(missing) + multiset{last};
        assert NodeFiles(jsFiles, existing) == node && WebFiles(jsFiles, existing) == web;
      } else if IsWebFile(last) {
        assert multiset(WebFiles(jsFiles, existing)) == multiset(web) + multiset{last};
        assert NodeFiles(jsFiles, existing) == node && MissingFiles(jsFiles, existing) == missing;
      } else {
        assert multiset(NodeFiles(jsFiles, existing)) == multiset(node) + multiset{last};
        assert WebFiles(jsFiles, existing) == web && MissingFiles(jsFiles, existing) == missing;
      }
    }
  }

  lemma {:induction false} ClassesSound(jsFiles: seq<string>, existing: set<string>)
    ensures forall f :: f in NodeFiles(jsFiles, existing) ==> f in existing && !IsWebFile(f)
    ensures forall f :: f in WebFiles(jsFiles, existing) ==> f in existing && IsWebFile(f)
  {
    if jsFiles != [] {
      ClassesSound(jsFiles[..|jsFiles| - 1], existing);
    }
  }

  /** The classification loop of `organize_js_files`; the flags it returns
      say whether each class is non-empty. */
  method OrganizeJsFiles(jsFiles: seq<string>, existing: set<string>)
    returns (nodeFiles: seq<string>, webFiles: seq<string>, hasNode: bool, hasWeb: bool)
    ensures nodeFiles == NodeFiles(jsFiles, existing)
    ensures webFiles == WebFiles(jsFiles, existing)
    ensures hasNode <==> (exists f :: f in jsFiles && f in existing && !IsWebFile(f))
    ensures hasWeb <==> (exists f :: f in jsFiles && f in existing && IsWebFile(f))
  {
    nodeFiles, webFiles := [], [];
    var i := 0;
    while i < |jsFiles|
      invariant 0 <= i <= |jsFiles|
      invariant nodeFiles == NodeFiles(jsFiles[..i], existing)
      invariant webFiles == WebFiles(jsFiles[..i], existing)
      invariant forall f :: f in nodeFiles <==> f in jsFiles[..i] && f in existing && !IsWebFile(f)
      invariant forall f :: f in webFiles <==> f in jsFiles[..i] && f in existing && IsWebFile(f)
    {
      var f := jsFiles[i];
      assert jsFiles[..i + 1][..i] == jsFiles[..i];
      assert jsFiles[..i + 1] == jsFiles[..i] + [f];
      if f in existing {
        if IsWebFile(f) {
          webFiles := webFiles + [f];
        } else {
          nodeFiles := nodeFiles + [f];
        }
      }
      i := i + 1;
    }
    assert jsFiles[..|jsFiles|] == jsFiles;
    hasNode := |nodeFiles| > 0;
    hasWeb := |webFiles| > 0;
    if hasNode {
      assert nodeFiles[0] in nodeFiles;
    }
    if hasWeb {
      assert webFiles[0] in webFiles;
    }
  }

  // ---------------------------------------------------------------------
  // Wrappers.

  const EsmBanner := "// Auto-converted to ESM\n"

  /** The `.mjs` wrapper: the source, with a banner in front when it holds `require(`. */
  function MjsWrapper(content: string): (r: string)
    ensures EndsWith(r, content)
    ensures r == content || r == EsmBanner + content
    ensures r != content <==> Contains(content, "require(")
  {
    if Contains(content, "require(") then
      assert (EsmBanner + content)[|EsmBanner|..] == content;
      EsmBanner + content
    else
      assert content[|content| - |content|..] == content;
      content
  }

  /** The final component's suffix as `PurePath.suffix` gives it: from the
      last `.`, unless that dot opens or ends the name. */
  function Suffix(name: string): (r: string)
    ensures r == "" || (r[0] == '.' && EndsWith(name, r) && |r| < |name|)
  {
    match LastIndexOf(name, '.')
    case Some(i) =>
      if 0 < i < |name| - 1 then
        assert name[|name| - |name[i..]|..] == name[i..];
        name[i..]
      else ""
    case None => ""
  }

  /** `with_suffix(ext)` on the final component. */
  function WithSuffix(name: string, ext: string): string {
    var s := Suffix(name);
    name[..|name| - |s|] + ext
  }

  /** Replacing a `.js` suffix keeps the stem: the `.cjs` and `.mjs`
      wrappers sit next to the file they wrap. */
  lemma WrapperNames(stem: string)
    requires stem != "" && !HasChar(stem, '.')
    ensures Suffix(stem + ".js") == ".js"
    ensures WithSuffix(stem + ".js", ".cjs") == stem + ".cjs"
    ensures WithSuffix(stem + ".js", ".mjs") == stem + ".mjs"
  {
    var name := stem + ".js";
    assert name[|stem|] == '.';
    var li := LastIndexOf(name, '.');
    assert li.Some?;
    assert name[|stem| + 1] != '.' && name[|stem| + 2] != '.';
    assert li.value == |stem|;
    assert name[|stem|..] == ".js";
  }

  // ---------------------------------------------------------------------
  // Index files.

  /** A generated index: its header line, then a line for each present class, node first. */
  function IndexLines(header: string, nodeLine: string, webLine: string, hasNode: bool, hasWeb: bool): seq<string> {
    [header] + (if hasNode then [nodeLine] else []) + (if hasWeb then [webLine] else [])
  }

  /** The text of a generated index: each of its lines ends in a newline. */
  function IndexText(header: string, nodeLine: string, webLine: string, hasNode: bool, hasWeb: bool): string {
    Unlines(IndexLines(header, nodeLine, webLine, hasNode, hasWeb))
  }

  const CjsHeader := "// Auto-generated CommonJS index"
  const CjsNode := "exports.node = require('./node/index.cjs');"
  const CjsWeb := "exports.web = require('./web/index.cjs');"
  const EsmHeader := "// Auto-generated ESM index"
  const EsmNode := "export * as node from './node/index.mjs';"
  const EsmWeb := "export * as web from './web/index.mjs';"
  const DtsHeader := "// Auto-generated TypeScript definitions"
  const DtsNode := "export * as node from './node';"
  const DtsWeb := "export * as web from './web';"

  /** `create_index_files`: the three files it writes at the package
      root, by name. */
  function RootIndexFiles(hasNode: bool, hasWeb: bool): map<string, string> {
    map[
      "index.cjs" := IndexText(CjsHeader, CjsNode, CjsWeb, hasNode, hasWeb),
      "index.mjs" := IndexText(EsmHeader, EsmNode, EsmWeb, hasNode, hasWeb),
      "index.d.ts" := IndexText(DtsHeader, DtsNode, DtsWeb, hasNode, hasWeb)]
  }

  /** An index holds the node line exactly when there are node files and
      the web line exactly when there are web files, node before web. */
  lemma IndexLinesShape(header: string, nodeLine: string, webLine: string, hasNode: bool, hasWeb: bool)
    requires header != nodeLine && header != webLine && nodeLine != webLine
    ensures var lines := IndexLines(header, nodeLine, webLine, hasNode, hasWeb);
      lines[0] == header &&
      (nodeLine in lines <==> hasNode) && (webLine in lines <==> hasWeb) &&
      (hasNode && hasWeb ==> lines == [header, nodeLine, webLine])
  {
  }

  /** An index text read back line by line gives its lines. */
  lemma IndexTextLines(header: string, nodeLine: string, webLine: string, hasNode: bool, hasWeb: bool)
    requires !HasChar(header, '\n') && !HasChar(nodeLine, '\n') && !HasChar(webLine, '\n')
    ensures SplitLines(IndexText(header, nodeLine, webLine, hasNode, hasWeb)) ==
      IndexLines(header, nodeLine, webLine, hasNode, hasWeb)
  {
    var lines := IndexLines(header, nodeLine, webLine, hasNode, hasWeb);
    assert forall k :: 0 <= k < |lines| ==> lines[k] in {header, nodeLine, webLine};
    SplitLinesUnlines(lines);
  }

  /** The three root indexes share the shape. */
  lemma RootIndexesShape(hasNode: bool, hasWeb: bool)
    ensures CjsNode in IndexLines(CjsHeader, CjsNode, CjsWeb, hasNode, hasWeb) <==> hasNode
    ensures CjsWeb in IndexLines(CjsHeader, CjsNode, CjsWeb, hasNode, hasWeb) <==> hasWeb
    ensures EsmNode in IndexLines(EsmHeader, EsmNode, EsmWeb, hasNode, hasWeb) <==> hasNode
    ensures EsmWeb in IndexLines(EsmHeader, EsmNode, EsmWeb, hasNode, hasWeb) <==> hasWeb
    ensures DtsNode in IndexLines(DtsHeader, DtsNode, DtsWeb, hasNode, hasWeb) <==> hasNode
    ensures DtsWeb in IndexLines(DtsHeader, DtsNode, DtsWeb, hasNode, hasWeb) <==> hasWeb
  {
    assert CjsHeader[0] != CjsNode[0] && CjsHeader[0] != CjsWeb[0] && CjsNode[8] != CjsWeb[8];
    IndexLinesShape(CjsHeader, CjsNode, CjsWeb, hasNode, hasWeb);
    assert EsmHeader[0] != EsmNode[0] && EsmHeader[0] != EsmWeb[0] && EsmNode[12] != EsmWeb[12];
    IndexLinesShape(EsmHeader, EsmNode, EsmWeb, hasNode, hasWeb);
    assert DtsHeader[0] != DtsNode[0] && DtsHeader[0] != DtsWeb[0] && DtsNode[12] != DtsWeb[12];
    IndexLinesShape(DtsHeader, DtsNode, DtsWeb, hasNode, hasWeb);
  }

  lemma CjsLinesFree()
    ensures !HasChar(CjsHeader, '\n') && !HasChar(CjsNode, '\n') && !HasChar(CjsWeb, '\n')
  {
  }

  lemma EsmLinesFree()
    ensures !HasChar(EsmHeader, '\n') && !HasChar(EsmNode, '\n') && !HasChar(EsmWeb, '\n')
  {
  }

  lemma DtsLinesFree()
    ensures !HasChar(DtsHeader, '\n') && !HasChar(DtsNode, '\n') && !HasChar(DtsWeb, '\n')
  {
  }

  /** Each root index, read back line by line, is its header followed by
      the node line and the web line for the classes present. */
  lemma RootIndexFilesLines(hasNode: bool, hasWeb: bool)
    ensures SplitLines(RootIndexFiles(hasNode, hasWeb)["index.cjs"]) ==
      IndexLines(CjsHeader, CjsNode, CjsWeb, hasNode, hasWeb)
    ensures SplitLines(RootIndexFiles(hasNode, hasWeb)["index.mjs"]) ==
      IndexLines(EsmHeader, EsmNode, EsmWeb, hasNode, hasWeb)
    ensures SplitLines(RootIndexFiles(hasNode, hasWeb)["index.d.ts"]) ==
      IndexLines(DtsHeader, DtsNode, DtsWeb, hasNode, hasWeb)
  {
    CjsLinesFree();
    IndexTextLines(CjsHeader, CjsNode, CjsWeb, hasNode, hasWeb);
    EsmLinesFree();
    IndexTextLines(EsmHeader, EsmNode, EsmWeb, hasNode, hasWeb);
    DtsLinesFree();
    IndexTextLines(DtsHeader, DtsNode, DtsWeb, hasNode, hasWeb);
  }

  // ---------------------------------------------------------------------
  // Subdirectory index.

  /** The export name of a module: its path without suffix, with both
      separators replaced by `_`. */
  function ExportName(relNoSuffix: string): (r: string)
    ensures |r| == |relNoSuffix|
    ensures !HasChar(r, '/') && !HasChar(r, '\\')
  {
    var r := ReplaceChar(ReplaceChar(relNoSuffix, '/', '_'), '\\', '_');
    forall i | 0 <= i < |r| ensures r[i] != '/' && r[i] != '\\' { }
    r
  }

  /** A path whose segments hold no `_` is recovered from its export name. */
  lemma ExportNameInverse(relNoSuffix: string)
    requires !HasChar(relNoSuffix, '_') && !HasChar(relNoSuffix, '\\')
    ensures ReplaceChar(ExportName(relNoSuffix), '_', '/') == relNoSuffix
  {
    var e := ExportName(relNoSuffix);
    var r := ReplaceChar(e, '_', '/');
    forall i | 0 <= i < |relNoSuffix| ensures r[i] == relNoSuffix[i] {
      assert relNoSuffix[i] != '_' && relNoSuffix[i] != '\\';
    }
  }

  /** The module path of an export: `./` and the path with forward slashes. */
  function ModulePath(relNoSuffix: string): (r: string)
    ensures StartsWith(r, "./") && !HasChar(r[2..], '\\')
  {
    var m := ReplaceChar(relNoSuffix, '\\', '/');
    forall i | 0 <= i < |m| ensures m[i] != '\\' { }
    assert ("./" + m)[2..] == m;
    "./" + m
  }

  function ExportLine(relNoSuffix: string): string {
    "export * as " + ExportName(relNoSuffix) + " from '" + ModulePath(relNoSuffix) + "';"
  }

  /** The loop of `create_subdir_index`: one export line per JavaScript
      file found, in the order the directory walk yields them. */
  method SubdirExports(jsRelNoSuffix: seq<string>) returns (exports: seq<string>)
    ensures |exports| == |jsRelNoSuffix|
    ensures forall i :: 0 <= i < |exports| ==> exports[i] == ExportLine(jsRelNoSuffix[i])
  {
    exports := [];
    for i := 0 to |jsRelNoSuffix|
      invariant |exports| == i
      invariant forall k :: 0 <= k < i ==> exports[k] == ExportLine(jsRelNoSuffix[k])
    {
      exports := exports + [ExportLine(jsRelNoSuffix[i])];
    }
  }
  /** `create_subdir_index`: the files it writes in `node/` or `web/`.
      `index.js` joins the export lines with newlines, `index.cjs` and
      `index.d.ts` copy it and `index.mjs` is its ESM wrapper. */
  function SubdirIndexFiles(exports: seq<string>): map<string, string> {
    var text := Join(exports, "\n");
    map["index.js" := text, "index.cjs" := text, "index.mjs" := MjsWrapper(text), "index.d.ts" := text]
  }

  /** An export line has no newline when its path has none. */
  lemma ExportLineFree(relNoSuffix: string)
    requires !HasChar(relNoSuffix, '\n')
    ensures !HasChar(ExportLine(relNoSuffix), '\n')
  {
    var name := ExportName(relNoSuffix);
    var path := ModulePath(relNoSuffix);
    assert !HasChar(name, '\n') by {
      forall i | 0 <= i < |name| ensures name[i] != '\n' {
        assert relNoSuffix[i] != '\n';
      }
    }
    assert !HasChar(path, '\n') by {
      var m := ReplaceChar(relNoSuffix, '\\', '/');
      forall i | 0 <= i < |m| ensures m[i] != '\n' {
        assert relNoSuffix[i] != '\n';
      }
      HasCharConcat("./", m, '\n');
    }
    assert !HasChar("export * as ", '\n') && !HasChar(" from '", '\n') && !HasChar("';", '\n');
    HasCharConcat("export * as ", name, '\n');
    HasCharConcat("export * as " + name, " from '", '\n');
    HasCharConcat("export * as " + name + " from '", path, '\n');
    HasCharConcat("export * as " + name + " from '" + path, "';", '\n');
  }

  /** The subdirectory index, split at its newlines, gives back the
      export lines of the walk, one per JavaScript file and in order. */
  lemma SubdirIndexLines(jsRelNoSuffix: seq<string>, exports: seq<string>)
    requires jsRelNoSuffix != [] && forall k :: 0 <= k < |jsRelNoSuffix| ==> !HasChar(jsRelNoSuffix[k], '\n')
    requires |exports| == |jsRelNoSuffix|
    requires forall i :: 0 <= i < |exports| ==> exports[i] == ExportLine(jsRelNoSuffix[i])
    ensures Split(SubdirIndexFiles(exports)["index.js"], "\n") == exports
    ensures SubdirIndexFiles(exports)["index.d.ts"] == SubdirIndexFiles(exports)["index.js"]
  {
    forall k | 0 <= k < |exports| ensures !HasChar(exports[k], '\n') {
      ExportLineFree(jsRelNoSuffix[k]);
    }
    SplitJoinLines(exports);
  }
}
