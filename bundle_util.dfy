/** Helpers on Bundle messages: the `lakes/{lake}/bundles/{bundle}`
    resource name, the bundle's directory below its lake, its
    workspace-relative path and Bazel target, and its proto package. */
module BundleUtil {
  import opened Text
  import opened JavaText
  import opened JavaPaths
  import opened Protos
  import LakeUtil

  const BundlesSep := "/bundles/"

  /** `toResourceName`. */
  function ToResourceName(lakeId: string, bundleId: string): string {
    LakeUtil.ResourcePrefix + lakeId + BundlesSep + bundleId
  }

  /** `extractBundleId` as written: the second of the parts of the whole
      name split at every `/bundles/`, or `""` without one. The first
      `/bundles/` may lie inside the lake id part. */
  function ExtractBundleIdAsWritten(resourceName: string): (id: string)
    ensures !Contains(resourceName, BundlesSep) ==> id == ""
    ensures Contains(resourceName, BundlesSep) ==>
      id == BeforeFirst(SplitFirst(resourceName, BundlesSep).value.1, BundlesSep)
  {
    if Contains(resourceName, BundlesSep) then
      var parts := SplitKeep(resourceName, BundlesSep);
      FindIffContains(resourceName, BundlesSep);
      if |parts| >= 2 then parts[1] else ""
    else ""
  }

  /** `extractBundleId` as evidently intended: for a `lakes/` name, what
      follows the `/bundles/` that ends the lake id; other names are
      handled as written. */
  function ExtractBundleId(resourceName: string): (id: string)
    ensures !StartsWith(resourceName, LakeUtil.ResourcePrefix) ==> id == ExtractBundleIdAsWritten(resourceName)
  {
    if StartsWith(resourceName, LakeUtil.ResourcePrefix) then
      match SplitFirst(resourceName[|LakeUtil.ResourcePrefix|..], BundlesSep)
      case Some((_, rest)) => rest
      case None => ""
    else ExtractBundleIdAsWritten(resourceName)
  }

  /** `extractLakeIdFromBundle`: for a `lakes/` name, the text after
      `lakes/` up to the first `/bundles/`. */
  function ExtractLakeIdFromBundle(resourceName: string): (id: string)
    ensures StartsWith(resourceName, LakeUtil.ResourcePrefix) ==>
      id == BeforeFirst(resourceName[|LakeUtil.ResourcePrefix|..], BundlesSep)
    ensures !StartsWith(resourceName, LakeUtil.ResourcePrefix) ==> id == ""
  {
    if StartsWith(resourceName, LakeUtil.ResourcePrefix) then
      var parts := SplitJava(resourceName[|LakeUtil.ResourcePrefix|..], BundlesSep);
      SplitJavaHead(resourceName[|LakeUtil.ResourcePrefix|..], BundlesSep);
      if |parts| >= 1 then parts[0] else ""
    else ""
  }

  /** Whenever the lake id holds no `/`, the intended bundle-id extractor
      inverts `toResourceName`, whatever the bundle id. */
  lemma BundleIdRoundTrip(lakeId: string, bundleId: string)
    requires !HasChar(lakeId, '/')
    ensures ExtractBundleId(ToResourceName(lakeId, bundleId)) == bundleId
  {
    var tail := lakeId + BundlesSep + bundleId;
    assert ToResourceName(lakeId, bundleId) == LakeUtil.ResourcePrefix + tail;
    DropPrefix(LakeUtil.ResourcePrefix, tail);
    FirstCharFreeHead(lakeId, BundlesSep);
    SplitFirstConcat(lakeId, BundlesSep, bundleId);
  }

  /** And so does the lake-id extractor. */
  lemma LakeIdRoundTrip(lakeId: string, bundleId: string)
    requires !HasChar(lakeId, '/')
    ensures ExtractLakeIdFromBundle(ToResourceName(lakeId, bundleId)) == lakeId
  {
    var tail := lakeId + BundlesSep + bundleId;
    assert ToResourceName(lakeId, bundleId) == LakeUtil.ResourcePrefix + tail;
    DropPrefix(LakeUtil.ResourcePrefix, tail);
    SplitAfterFree(lakeId, BundlesSep, bundleId);
  }

  /** An occurrence of `p` in the text after a prefix is one in the
      whole text, so a single occurrence stays single. */
  lemma OccursOnceAfter(a: string, t: string, p: string)
    requires OccursOnce(a + t, p) && Contains(t, p)
    ensures OccursOnce(t, p)
  {
    forall i, j | OccursAt(t, p, i) && OccursAt(t, p, j) ensures i == j {
      OccursShift(a, t, p, i);
      OccursShift(a, t, p, j);
    }
  }

  /** When the composed name holds `/bundles/` exactly once, the bundle-id
      extractor as written inverts `toResourceName` too. */
  lemma BundleIdRoundTripOnce(lakeId: string, bundleId: string)
    requires OccursOnce(ToResourceName(lakeId, bundleId), BundlesSep)
    ensures ExtractBundleIdAsWritten(ToResourceName(lakeId, bundleId)) == bundleId
  {
    var head := LakeUtil.ResourcePrefix + lakeId;
    assert ToResourceName(lakeId, bundleId) == head + BundlesSep + bundleId;
    SplitOnce(head, BundlesSep, bundleId);
    assert Split(ToResourceName(lakeId, bundleId), BundlesSep)[1] == bundleId;
  }

  /** And so does the lake-id extractor. */
  lemma LakeIdRoundTripOnce(lakeId: string, bundleId: string)
    requires OccursOnce(ToResourceName(lakeId, bundleId), BundlesSep)
    ensures ExtractLakeIdFromBundle(ToResourceName(lakeId, bundleId)) == lakeId
  {
    var tail := lakeId + BundlesSep + bundleId;
    assert ToResourceName(lakeId, bundleId) == LakeUtil.ResourcePrefix + tail;
    assert OccursAt(tail, BundlesSep, |lakeId|) by {
      assert tail[|lakeId|..|lakeId| + |BundlesSep|] == BundlesSep;
    }
    OccursOnceAfter(LakeUtil.ResourcePrefix, tail, BundlesSep);
    SplitOnce(lakeId, BundlesSep, bundleId);
    DropPrefix(LakeUtil.ResourcePrefix, tail);
  }

  /** A lake called `bundles` (a valid lake name) puts a `/bundles/` inside
      the lake part: the id as written is then `bundles/<id>`, where
      `BundleIdRoundTrip` gives the intended id back. */
  lemma LakeNamedBundles(bundleId: string)
    requires !HasChar(bundleId, '/')
    ensures ExtractBundleIdAsWritten(ToResourceName("bundles", bundleId)) == "bundles/" + bundleId
  {
    var rest := "bundles/" + bundleId;
    assert ToResourceName("bundles", bundleId) == "lakes" + BundlesSep + rest;
    forall j | 0 <= j <= |rest| - |BundlesSep| ensures !OccursAt(rest, BundlesSep, j) {
      assert rest[j + 8] == bundleId[j];
    }
    assert !HasChar("lakes", '/');
    assert !Contains(rest, BundlesSep);
    AsWrittenAfterFree("lakes", rest);
  }

  /** As written, the id is what follows the first `/bundles/` when no
      second one follows. */
  lemma AsWrittenAfterFreeHead(a: string, b: string)
    requires FreeHead(a, BundlesSep) && !Contains(b, BundlesSep)
    ensures ExtractBundleIdAsWritten(a + BundlesSep + b) == b
  {
    var s := a + BundlesSep + b;
    FindConcat(a, BundlesSep, b);
    FindIffContains(b, BundlesSep);
    assert s[..|a|] == a && s[|a| + |BundlesSep|..] == b;
    assert OccursAt(s, BundlesSep, |a|) by {
      assert s[|a|..|a| + |BundlesSep|] == BundlesSep;
    }
  }

  lemma AsWrittenAfterFree(a: string, b: string)
    requires !HasChar(a, '/') && !Contains(b, BundlesSep)
    ensures ExtractBundleIdAsWritten(a + BundlesSep + b) == b
  {
    FirstCharFreeHead(a, BundlesSep);
    AsWrittenAfterFreeHead(a, b);
  }

  /** A text without `/` holds no `/bundles/`. */
  lemma SlashFreeNoSep(b: string)
    requires !HasChar(b, '/')
    ensures !Contains(b, BundlesSep)
  {
    forall i | 0 <= i <= |b| - |BundlesSep| ensures !OccursAt(b, BundlesSep, i) {
      assert b[i..i + |BundlesSep|][0] == b[i];
    }
  }

  /** `lakes/{lake}` followed by `/bundles` holds no `/bundles/` unless
      the lake is called `bundles`. */
  lemma LakePartFree(lakeId: string)
    requires !HasChar(lakeId, '/') && lakeId != "bundles"
    ensures FreeHead(LakeUtil.ResourcePrefix + lakeId, BundlesSep)
  {
    var h := LakeUtil.ResourcePrefix + lakeId + BundlesSep[..|BundlesSep| - 1];
    assert h == "lakes/" + lakeId + "/bundles";
    var n := |lakeId|;
    forall j | 0 <= j <= |h| - |BundlesSep| ensures !OccursAt(h, BundlesSep, j) {
      var w := h[j..j + |BundlesSep|];
      if j < 5 {
        assert w[0] == h[j] == "lakes"[j];
      } else if j > 5 {
        assert w[0] == h[j] == lakeId[j - 6];
      } else if n > 7 {
        assert w[8] == h[13] == lakeId[7];
      } else if n < 7 {
        assert w[8] == h[13] == "/bundles"[7 - n];
      } else {
        var k :| 0 <= k < 7 && lakeId[k] != "bundles"[k];
        assert w[1 + k] == h[6 + k] == lakeId[k];
      }
    }
  }

  /** As written, `extractBundleId` inverts `toResourceName` for every
      lake id without `/` other than `bundles`, and every bundle id
      without `/bundles/`. */
  lemma BundleIdRoundTripAsWritten(lakeId: string, bundleId: string)
    requires !HasChar(lakeId, '/') && lakeId != "bundles" && !Contains(bundleId, BundlesSep)
    ensures ExtractBundleIdAsWritten(ToResourceName(lakeId, bundleId)) == bundleId
  {
    LakePartFree(lakeId);
    AsWrittenAfterFreeHead(LakeUtil.ResourcePrefix + lakeId, bundleId);
  }

  /** The directories a dotted package prefix stands for: none for an
      empty prefix. */
  function PackageDirs(prefix: string): seq<string> {
    if prefix == "" then [] else Split(prefix, ".")
  }

  /** A prefix whose dotted parts are path names free of backslashes. */
  predicate PlainPackage(prefix: string) {
    forall i :: 0 <= i < |PackageDirs(prefix)| ==> IsName(PackageDirs(prefix)[i]) && !HasChar(PackageDirs(prefix)[i], '\\')
  }

  /** A bundle id that is one path name and one package component. */
  predicate PlainId(id: string) {
    IsName(id) && !HasChar(id, '\\') && !HasChar(id, '.')
  }

  /** A dotted prefix with `.` replaced by `/` names its directories. */
  lemma PrefixDirs(prefix: string)
    requires prefix != "" && PlainPackage(prefix)
    ensures ReplaceChar(prefix, '.', '/') == Join(PackageDirs(prefix), "/")
    ensures Get(ReplaceChar(prefix, '.', '/')) == Path(false, PackageDirs(prefix))
  {
    var ds := PackageDirs(prefix);
    JoinSplitReplace(prefix, '.', '/');
    NamesJoin(ds);
    assert IsName(ds[0]);
    JoinHead(ds);
  }

  /** A plain id is a one-name relative path. */
  lemma IdPath(id: string)
    requires IsName(id)
    ensures Get(id) == Path(false, [id])
  {
    NamesJoin([id]);
    assert Join([id], "/") == id;
  }

  /** `getFullProtoPackage`: `prefix.id`, or the id alone. */
  function GetFullProtoPackage(bundle: Bundle): string {
    var bundleId := ExtractBundleIdAsWritten(bundle.name);
    if bundle.bundlePrefix != "" then bundle.bundlePrefix + "." + bundleId else bundleId
  }

  /** The proto package, read as a path, names the bundle's directories
      below its lake. */
  lemma ProtoPackageMirrorsPath(bundle: Bundle)
    requires PlainPackage(bundle.bundlePrefix) && PlainId(ExtractBundleIdAsWritten(bundle.name))
    ensures Get(ReplaceChar(GetFullProtoPackage(bundle), '.', '/'))
         == Path(false, PackageDirs(bundle.bundlePrefix) + [ExtractBundleIdAsWritten(bundle.name)])
  {
    var prefix, id := bundle.bundlePrefix, ExtractBundleIdAsWritten(bundle.name);
    var ds := PackageDirs(prefix);
    ReplaceCharAbsent(id, '.', '/');
    if prefix == "" {
      IdPath(id);
    } else {
      PrefixDirs(prefix);
      ReplaceCharConcat(prefix + ".", id, '.', '/');
      ReplaceCharConcat(prefix, ".", '.', '/');
      assert ReplaceChar(".", '.', '/') == "/";
      JoinSnoc(ds, "/", id);
      forall i | 0 <= i < |ds + [id]| ensures IsName((ds + [id])[i]) {
        if i < |ds| { assert (ds + [id])[i] == ds[i]; }
      }
      NamesJoin(ds + [id]);
      JoinHead(ds);
    }
  }

  /** `calculateBundlePath(Lake, Bundle, String)`. */
  function CalculateBundlePath(lake: Lake, bundle: Bundle, basePath: string): Path {
    var lakePath := LakeUtil.GetLocalPath(lake, basePath);
    var bundleId := ExtractBundleIdAsWritten(bundle.name);
    if bundle.bundlePrefix != "" then
      ResolveString(ResolveString(lakePath, ReplaceChar(bundle.bundlePrefix, '.', '/')), bundleId)
    else ResolveString(lakePath, bundleId)
  }

  /** `calculateBundlePath(Path, String, String)`. */
  function CalculateBundlePathFrom(lakePath: Path, bundlePrefix: string, bundleName: string): Path {
    if bundlePrefix != "" then
      ResolveString(ResolveString(lakePath, ReplaceChar(bundlePrefix, '.', '/')), bundleName)
    else ResolveString(lakePath, bundleName)
  }

  /** With plain names the bundle lies the prefix's parts and the id below
      the lake path it is given. */
  lemma BundlePathFromLayout(lakePath: Path, prefix: string, name: string)
    requires PlainPackage(prefix) && IsName(name)
    ensures CalculateBundlePathFrom(lakePath, prefix, name) == Resolve(lakePath, Path(false, PackageDirs(prefix) + [name]))
  {
    IdPath(name);
    if prefix != "" {
      PrefixDirs(prefix);
    }
  }

  /** Both overloads place a bundle in the same directory, and with plain
      names that directory is the lake's, then the prefix's parts, then the
      id: inside the lake. */
  lemma BundlePathLayout(lake: Lake, bundle: Bundle, basePath: string)
    requires PlainPackage(bundle.bundlePrefix) && PlainId(ExtractBundleIdAsWritten(bundle.name))
    ensures CalculateBundlePath(lake, bundle, basePath)
         == CalculateBundlePathFrom(LakeUtil.GetLocalPath(lake, basePath), bundle.bundlePrefix, ExtractBundleIdAsWritten(bundle.name))
    ensures CalculateBundlePath(lake, bundle, basePath)
         == Resolve(LakeUtil.GetLocalPath(lake, basePath), Path(false, PackageDirs(bundle.bundlePrefix) + [ExtractBundleIdAsWritten(bundle.name)]))
    ensures StartsWithPath(CalculateBundlePath(lake, bundle, basePath), LakeUtil.GetLocalPath(lake, basePath))
  {
    var lakePath := LakeUtil.GetLocalPath(lake, basePath);
    var id := ExtractBundleIdAsWritten(bundle.name);
    BundlePathFromLayout(lakePath, bundle.bundlePrefix, id);
    StartsWithResolve(lakePath, Path(false, PackageDirs(bundle.bundlePrefix) + [id]));
  }

  /** `getBundleYamlPath`. */
  function GetBundleYamlPath(lake: Lake, bundle: Bundle, basePath: string): (r: Path)
    ensures var dir := CalculateBundlePath(lake, bundle, basePath);
      (dir.absolute || dir.names != []) ==> Parent(r) == Some(dir)
  {
    IdPath("bundle.yaml");
    ResolveString(CalculateBundlePath(lake, bundle, basePath), "bundle.yaml")
  }

  /** `getWorkspaceRelativePath`: the lake's relative path, the prefix's
      directories and the id, printed with forward slashes. */
  function GetWorkspaceRelativePath(lake: Lake, bundle: Bundle): string {
    var path := Get(LakeUtil.GetRelativePath(lake));
    var bundleId := ExtractBundleIdAsWritten(bundle.name);
    var path' := if bundle.bundlePrefix != "" then ResolveString(path, ReplaceChar(bundle.bundlePrefix, '.', '/')) else path;
    ReplaceChar(ToString(ResolveString(path', bundleId)), '\\', '/')
  }

  /** `getWorkspaceRelativeTarget`. */
  function GetWorkspaceRelativeTarget(lake: Lake, bundle: Bundle): (target: string)
    ensures StartsWith(target, "//") && EndsWith(target, "/...")
  {
    var t := "//" + GetWorkspaceRelativePath(lake, bundle) + "/...";
    assert t[..2] == "//" && t[|t| - 4..] == "/...";
    t
  }

  /** With plain names, the workspace path is the lake's names, the
      prefix's parts and the id joined by `/`. */
  lemma WorkspacePathLayout(lake: Lake, bundle: Bundle)
    requires LakeUtil.PlainRelative(LakeUtil.GetRelativePath(lake))
    requires PlainPackage(bundle.bundlePrefix) && PlainId(ExtractBundleIdAsWritten(bundle.name))
    ensures GetWorkspaceRelativePath(lake, bundle)
         == Join(Names(LakeUtil.GetRelativePath(lake)) + PackageDirs(bundle.bundlePrefix) + [ExtractBundleIdAsWritten(bundle.name)], "/")
  {
    var rel := LakeUtil.GetRelativePath(lake);
    var ls, ds, id := Names(rel), PackageDirs(bundle.bundlePrefix), ExtractBundleIdAsWritten(bundle.name);
    IdPath(id);
    if bundle.bundlePrefix != "" {
      PrefixDirs(bundle.bundlePrefix);
    } else {
      assert ls + ds == ls;
    }
    var p := Path(false, ls + ds + [id]);
    NamesFreeOf(rel, '\\');
    forall i | 0 <= i < |p.names| ensures !HasChar(p.names[i], '\\') {
      if i < |ls| {
        assert p.names[i] == ls[i];
      } else if i < |ls| + |ds| {
        assert p.names[i] == ds[i - |ls|];
      } else {
        assert p.names[i] == id;
      }
    }
    assert !HasChar("/", '\\');
    JoinCharFree(p.names, "/", '\\');
    ReplaceCharAbsent(ToString(p), '\\', '/');
  }
}
