/** Conversions between dotted package prefixes and directory paths, the
    check that a configured prefix matches where a lake or bundle lies,
    and the prefix recovered from where it lies. */
module PathValidation {
  import opened Text
  import opened JavaText
  import opened JavaPaths
  import BundleUtil

  /** `packagePrefixToPath`: dots become slashes. */
  function PackagePrefixToPath(packagePrefix: string): (path: string)
    ensures |path| == |packagePrefix| && !HasChar(path, '.')
  {
    if packagePrefix == "" then "" else ReplaceChar(packagePrefix, '.', '/')
  }

  /** `pathToPackagePrefix`: backslashes and slashes become dots. */
  function PathToPackagePrefix(path: string): (prefix: string)
    ensures |prefix| == |path| && !HasChar(prefix, '/') && !HasChar(prefix, '\\')
  {
    if path == "" then "" else ReplaceChar(ReplaceChar(path, '\\', '/'), '/', '.')
  }

  /** A prefix holding no separator survives the trip through its path. */
  lemma PrefixRoundTrip(prefix: string)
    requires !HasChar(prefix, '/') && !HasChar(prefix, '\\')
    ensures PathToPackagePrefix(PackagePrefixToPath(prefix)) == prefix
  {
    var r := PathToPackagePrefix(PackagePrefixToPath(prefix));
    assert forall i :: 0 <= i < |prefix| ==> r[i] == prefix[i];
  }

  /** A path holding no dot and no backslash survives the trip through its
      prefix. */
  lemma PathRoundTrip(path: string)
    requires !HasChar(path, '.') && !HasChar(path, '\\')
    ensures PackagePrefixToPath(PathToPackagePrefix(path)) == path
  {
    var r := PackagePrefixToPath(PathToPackagePrefix(path));
    assert forall i :: 0 <= i < |path| ==> r[i] == path[i];
  }

  /** `validateLakePrefix`: the lake lies at `base[/prefix]/name`, up to
      normalisation; the prefix is taken as a path, dots and all. */
  predicate ValidateLakePrefix(lakePrefix: string, lakeName: string, actualPath: Path, basePath: Path) {
    Normalize(ExpectedLakePath(basePath, lakePrefix, lakeName)) == Normalize(actualPath)
  }

  function ExpectedLakePath(basePath: Path, lakePrefix: string, lakeName: string): Path {
    var p := if lakePrefix != "" then ResolveString(basePath, lakePrefix) else basePath;
    ResolveString(p, lakeName)
  }

  /** `validateBundlePrefix`: the bundle lies at `lake[/prefix as path]/name`,
      up to normalisation; the expected path is the one
      `calculateBundlePath` builds. */
  predicate ValidateBundlePrefix(bundlePrefix: string, bundleName: string, actualPath: Path, lakePath: Path) {
    Normalize(BundleUtil.CalculateBundlePathFrom(lakePath, bundlePrefix, bundleName)) == Normalize(actualPath)
  }

  /** A relative path as `calculate*Prefix` read it: printed, with
      backslashes turned into slashes. */
  function RelativeText(rel: Path): string {
    ReplaceChar(ToString(rel), '\\', '/')
  }

  /** The text before a trailing `/name`; `""` for the name itself;
      otherwise the whole text. */
  function StripLastName(relativeStr: string, name: string): string {
    if EndsWith(relativeStr, "/" + name) then relativeStr[..|relativeStr| - |name| - 1]
    else if relativeStr == name then ""
    else relativeStr
  }

  /** `calculateLakePrefix`: the path from the base to the lake without its
      last `/name`; `""` for a lake right under the base or where
      relativising throws. */
  function CalculateLakePrefix(lakePath: Path, lakeName: string, basePath: Path): string {
    match Relativize(basePath, lakePath)
    case None => ""
    case Some(rel) => StripLastName(RelativeText(rel), lakeName)
  }

  /** `calculateBundlePrefix`: as for lakes, then converted to a dotted
      prefix (the source's `""` branch is the conversion of `""`). */
  function CalculateBundlePrefix(bundlePath: Path, bundleName: string, lakePath: Path): string {
    match Relativize(lakePath, bundlePath)
    case None => ""
    case Some(rel) => PathToPackagePrefix(StripLastName(RelativeText(rel), bundleName))
  }

  /** A prefix made of plain dotted parts holds no separator, and none of
      its parts is `.` or `..`. */
  lemma PlainPackageFree(prefix: string)
    requires BundleUtil.PlainPackage(prefix)
    ensures !HasChar(prefix, '/') && !HasChar(prefix, '\\')
    ensures !HasDotNames(BundleUtil.PackageDirs(prefix))
  {
    if prefix != "" {
      var ds := BundleUtil.PackageDirs(prefix);
      JoinSplit(prefix, ".");
      assert !HasChar(".", '/') && !HasChar(".", '\\');
      JoinCharFree(ds, ".", '/');
      JoinCharFree(ds, ".", '\\');
      SplitPartsFree(prefix, ".");
      forall i | 0 <= i < |ds| ensures !IsDotName(ds[i]) {
        ContainsCharIffHasChar(ds[i], '.');
        assert "."[0] == '.' && ".."[0] == '.';
      }
    }
  }

  /** Names free of backslashes read back as their join. */
  lemma RelativeTextOf(names: seq<string>)
    requires forall i :: 0 <= i < |names| ==> !HasChar(names[i], '\\')
    ensures RelativeText(Path(false, names)) == Join(names, "/")
  {
    assert !HasChar("/", '\\');
    JoinCharFree(names, "/", '\\');
    ReplaceCharAbsent(Join(names, "/"), '\\', '/');
  }

  lemma SplitOffLastName(a: string, name: string)
    ensures StripLastName(a + "/" + name, name) == a
  {
    var t := a + "/" + name;
    assert t[|t| - |name| - 1..] == "/" + name;
    assert t[..|t| - |name| - 1] == a;
  }

  /** Stripping the last name of joined names leaves the others joined. */
  lemma StripJoinedName(dirs: seq<string>, name: string)
    requires name != ""
    ensures StripLastName(Join(dirs + [name], "/"), name) == Join(dirs, "/")
  {
    if dirs == [] {
      assert dirs + [name] == [name];
    } else {
      JoinSnoc(dirs, "/", name);
      SplitOffLastName(Join(dirs, "/"), name);
    }
  }

  /** The names a bundle lies below its lake: plain, with no `.` or `..`
      and no backslash. */
  lemma PlainBundleNames(prefix: string, name: string)
    requires BundleUtil.PlainPackage(prefix) && BundleUtil.PlainId(name)
    ensures var extra := BundleUtil.PackageDirs(prefix) + [name];
      !HasDotNames(extra) && forall i :: 0 <= i < |extra| ==> !HasChar(extra[i], '\\')
  {
    var ds := BundleUtil.PackageDirs(prefix);
    var extra := ds + [name];
    PlainPackageFree(prefix);
    assert !IsDotName(name) by {
      assert "."[0] == '.' && ".."[0] == '.';
    }
    forall i | 0 <= i < |extra| ensures !IsDotName(extra[i]) && !HasChar(extra[i], '\\') {
      if i < |ds| { assert extra[i] == ds[i]; }
    }
  }

  /** A bundle placed below its lake by its prefix has that prefix
      recovered from its location, and the prefix then validates. */
  lemma BundlePrefixOfLayout(lakePath: Path, prefix: string, name: string)
    requires !HasDotNames(lakePath.names)
    requires BundleUtil.PlainPackage(prefix) && BundleUtil.PlainId(name)
    ensures CalculateBundlePrefix(BundleUtil.CalculateBundlePathFrom(lakePath, prefix, name), name, lakePath) == prefix
    ensures ValidateBundlePrefix(prefix, name, BundleUtil.CalculateBundlePathFrom(lakePath, prefix, name), lakePath)
  {
    var ds := BundleUtil.PackageDirs(prefix);
    var extra := ds + [name];
    BundleUtil.BundlePathFromLayout(lakePath, prefix, name);
    PlainBundleNames(prefix, name);
    RelativizeDescendant(lakePath, extra);
    RelativeTextOf(extra);
    StripJoinedName(ds, name);
    if prefix != "" {
      BundleUtil.PrefixDirs(prefix);
      PlainPackageFree(prefix);
      PrefixRoundTrip(prefix);
    }
  }

  /** A plain lake prefix puts the lake its names deeper than the base. */
  lemma ExpectedLakeLayout(basePath: Path, prefix: string, name: string)
    requires prefix == Join(Names(prefix), "/") && IsName(name)
    ensures ExpectedLakePath(basePath, prefix, name) == Path(basePath.absolute, basePath.names + (Names(prefix) + [name]))
  {
    var ls := Names(prefix);
    BundleUtil.IdPath(name);
    if prefix != "" {
      assert ls != [];
      JoinHead(ls);
      assert Get(prefix) == Path(false, ls);
    } else {
      assert ls + [name] == [name];
    }
  }

  /** A lake placed below the base by its prefix has that prefix recovered
      from its location, and the prefix then validates. */
  lemma LakePrefixOfLayout(basePath: Path, prefix: string, name: string)
    requires !HasDotNames(basePath.names)
    requires prefix == Join(Names(prefix), "/") && !HasChar(prefix, '\\') && !HasDotNames(Names(prefix))
    requires IsName(name) && !HasChar(name, '\\') && !IsDotName(name)
    ensures CalculateLakePrefix(ExpectedLakePath(basePath, prefix, name), name, basePath) == prefix
    ensures ValidateLakePrefix(prefix, name, ExpectedLakePath(basePath, prefix, name), basePath)
  {
    var ls := Names(prefix);
    var extra := ls + [name];
    ExpectedLakeLayout(basePath, prefix, name);
    NamesFreeOf(prefix, '\\');
    forall i | 0 <= i < |extra| ensures !IsDotName(extra[i]) && !HasChar(extra[i], '\\') {
      if i < |ls| { assert extra[i] == ls[i]; }
    }
    RelativizeDescendant(basePath, extra);
    RelativeTextOf(extra);
    StripJoinedName(ls, name);
  }
}
