/** The PyPI publisher (`pypi_publisher.py`, and its generated copy): a
    wheel is copied into a "simple" repository laid out as
    `<repo>/<normalised name>/<wheel>`, after which the package's
    `index.html` and the repository's root `index.html` are rebuilt from
    sorted directory listings. The generated copy can instead upload the
    wheel to a remote registry. */
module PypiPublisher {
  import opened Text
  import opened Sorting
  import opened RepoFiles
  import opened PublisherUtils

  // ---------------------------------------------------------------------
  // Names and paths.

  /** `package_name.replace('_', '-').lower()`: every `_` becomes `-`,
      upper case becomes lower case, and nothing else changes; dots and
      runs of separators are kept. */
  function NormalizeName(name: string): (r: string)
    ensures |r| == |name|
    ensures forall i :: 0 <= i < |name| ==> r[i] != '_' && !IsUpper(r[i])
    ensures forall i :: 0 <= i < |name| && name[i] == '_' ==> r[i] == '-'
    ensures forall i :: 0 <= i < |name| && name[i] != '_' && !IsUpper(name[i]) ==> r[i] == name[i]
  {
    ToLower(ReplaceChar(name, '_', '-'))
  }

  /** Normalising twice is normalising once. */
  lemma NormalizeNameIdempotent(name: string)
    ensures NormalizeName(NormalizeName(name)) == NormalizeName(name)
  {
    var once := NormalizeName(name);
    var twice := NormalizeName(once);
    forall i | 0 <= i < |name| ensures twice[i] == once[i] {
      assert once[i] != '_' && !IsUpper(once[i]);
    }
  }

  /** `Path(repo_path) / normalized_name`. */
  function PackageDir(repo: string, packageName: string): string {
    repo + "/" + NormalizeName(packageName)
  }

  /** `package_dir / os.path.basename(wheel_path)`. */
  function TargetWheel(repo: string, packageName: string, wheelPath: string): string {
    PackageDir(repo, packageName) + "/" + LastName(wheelPath)
  }

  /** The wheel lands in the package's directory under its own name. */
  lemma TargetWheelLayout(repo: string, packageName: string, wheelPath: string)
    ensures StartsWith(TargetWheel(repo, packageName, wheelPath), PackageDir(repo, packageName) + "/")
    ensures LastName(TargetWheel(repo, packageName, wheelPath)) == LastName(wheelPath)
    ensures TargetWheel(repo, NormalizeName(packageName), wheelPath) == TargetWheel(repo, packageName, wheelPath)
  {
    var dir := PackageDir(repo, packageName);
    assert (dir + "/" + LastName(wheelPath))[..|dir + "/"|] == dir + "/";
    LastNameOf(dir, LastName(wheelPath));
    NormalizeNameIdempotent(packageName);
  }

  // ---------------------------------------------------------------------
  // Directory listings.

  /** `p` names something directly inside `dir`. */
  predicate IsEntry(dir: string, p: string) {
    |p| > |dir| + 1 && StartsWith(p, dir + "/") && !HasChar(p[|dir| + 1..], '/')
  }

  /** `os.listdir(dir)` as a set: the names of the files and directories
      directly inside `dir`. */
  function Entries(files: Files, dirs: set<string>, dir: string): set<string> {
    set p | p in files.Keys + dirs && IsEntry(dir, p) :: p[|dir| + 1..]
  }

  /** A name is listed exactly when a file or directory of that name sits
      in the directory. */
  lemma EntriesExactly(files: Files, dirs: set<string>, dir: string, name: string)
    ensures name in Entries(files, dirs, dir) <==>
      name != "" && !HasChar(name, '/') && dir + "/" + name in files.Keys + dirs
  {
    var p := dir + "/" + name;
    assert p[..|dir + "/"|] == dir + "/" && p[|dir| + 1..] == name;
    if name in Entries(files, dirs, dir) {
      var q :| q in files.Keys + dirs && IsEntry(dir, q) && q[|dir| + 1..] == name;
      assert q == q[..|dir + "/"|] + q[|dir| + 1..];
    }
    if name != "" && !HasChar(name, '/') && p in files.Keys + dirs {
      assert IsEntry(dir, p);
    }
  }

  /** Adding files and directories never removes a name from a listing. */
  lemma EntriesGrow(files: Files, dirs: set<string>, files': Files, dirs': set<string>, dir: string)
    requires files.Keys <= files'.Keys && dirs <= dirs'
    ensures Entries(files, dirs, dir) <= Entries(files', dirs', dir)
  {
    forall name | name in Entries(files, dirs, dir) ensures name in Entries(files', dirs', dir) {
      EntriesExactly(files, dirs, dir, name);
      EntriesExactly(files', dirs', dir, name);
    }
  }

  /** `sorted(...)` of the names of a set: ascending, the set's members. */
  ghost function SortedSet(s: set<string>): (r: seq<string>)
    ensures Ascending(r)
    ensures forall y :: y in r <==> y in s
    decreases |s|
  {
    if s == {} then []
    else
      var x :| x in s;
      Insert(x, SortedSet(s - {x}))
  }

  /** Sorting a listing gives the same names whatever order the listing
      came in. */
  lemma SortedListing(xs: seq<string>, s: set<string>)
    requires forall y :: y in xs <==> y in s
    ensures SortDistinct(xs) == SortedSet(s)
  {
    AscendingUnique(SortDistinct(xs), SortedSet(s));
  }

  // ---------------------------------------------------------------------
  // Index pages.

  /** One `<a href=...>` line; `suffix` is `/` for a package directory. */
  function Anchor(name: string, suffix: string): string {
    "<a href=\"" + name + suffix + "\">" + name + "</a><br/>"
  }

  /** Different names never share an anchor line. */
  lemma AnchorInjective(a: string, b: string, suffix: string)
    requires Anchor(a, suffix) == Anchor(b, suffix)
    ensures a == b
  {
    var la := Anchor(a, suffix);
    assert |la| == 2 * |a| + |suffix| + 20;
    assert la[9..9 + |a|] == a;
    assert Anchor(b, suffix)[9..9 + |b|] == b;
  }

  const Header: seq<string> := ["<!DOCTYPE html>", "<html>", "<body>"]
  const Footer: seq<string> := ["</body>", "</html>"]

  function Anchors(names: seq<string>, suffix: string): (r: seq<string>)
    ensures |r| == |names|
    ensures forall i :: 0 <= i < |names| ==> r[i] == Anchor(names[i], suffix)
  {
    if names == [] then [] else [Anchor(names[0], suffix)] + Anchors(names[1..], suffix)
  }

  /** The lines of an index page listing `names`. */
  function PageLines(names: seq<string>, suffix: string): seq<string> {
    Header + Anchors(names, suffix) + Footer
  }

  /** Where each line of a page sits: the header, one anchor per name,
      the footer. */
  lemma PageLinesAt(names: seq<string>, suffix: string)
    ensures |PageLines(names, suffix)| == |names| + 5
    ensures forall i :: 0 <= i < |names| ==> PageLines(names, suffix)[3 + i] == Anchor(names[i], suffix)
    ensures forall k :: 0 <= k < |PageLines(names, suffix)| && !(3 <= k < 3 + |names|) ==>
      PageLines(names, suffix)[k] in Header + Footer
  {
    var lines := PageLines(names, suffix);
    forall k | 0 <= k < |lines| && !(3 <= k < 3 + |names|) ensures lines[k] in Header + Footer {
      if k < 3 {
        assert lines[k] == Header[k];
      } else {
        assert lines[k] == Footer[k - 3 - |names|];
      }
    }
  }

  /** No anchor line is a line of the header or the footer. */
  lemma AnchorNotFrame(n: string, suffix: string)
    ensures Anchor(n, suffix) !in Header + Footer
  {
    var a := Anchor(n, suffix);
    assert a[1] == 'a';
    assert forall line :: line in Header + Footer ==> line[1] != 'a';
  }

  /** An anchor line has a newline only where its name or suffix has one. */
  lemma AnchorNoNewline(n: string, suffix: string)
    requires !HasChar(n, '\n') && !HasChar(suffix, '\n')
    ensures !HasChar(Anchor(n, suffix), '\n')
  {
    var open, close, end := "<a href=\"", "\">", "</a><br/>";
    assert !HasChar(open, '\n') && !HasChar(close, '\n') && !HasChar(end, '\n');
    HasCharConcat(open, n, '\n');
    HasCharConcat(open + n, suffix, '\n');
    HasCharConcat(open + n + suffix, close, '\n');
    HasCharConcat(open + n + suffix + close, n, '\n');
    HasCharConcat(open + n + suffix + close + n, end, '\n');
  }

  /** The lines of the index page listing a set of names, in sorted order. */
  ghost function IndexLines(names: set<string>, suffix: string): seq<string> {
    PageLines(SortedSet(names), suffix)
  }

  /** A name has an anchor on the page exactly when it is in the set. */
  lemma IndexListsExactly(names: set<string>, suffix: string, n: string)
    ensures Anchor(n, suffix) in IndexLines(names, suffix) <==> n in names
  {
    var ws := SortedSet(names);
    var lines := PageLines(ws, suffix);
    assert lines == IndexLines(names, suffix);
    PageLinesAt(ws, suffix);
    var a := Anchor(n, suffix);
    if a in lines {
      var k :| 0 <= k < |lines| && lines[k] == a;
      AnchorNotFrame(n, suffix);
      assert 3 <= k < 3 + |ws|;
      AnchorInjective(n, ws[k - 3], suffix);
    }
    if n in names {
      var i :| 0 <= i < |ws| && ws[i] == n;
      assert lines[3 + i] == a;
    }
  }

  /** In an ascending sequence the smaller name comes first. */
  lemma AscendingPositions(ws: seq<string>, i: int, j: int)
    requires Ascending(ws) && 0 <= i < |ws| && 0 <= j < |ws| && Below(ws[i], ws[j])
    ensures i < j
  {
    BelowAsym(ws[i], ws[j]);
    assert !Below(ws[j], ws[i]);
  }

  /** Names come in ascending order. */
  lemma IndexOrder(names: set<string>, suffix: string, a: string, b: string)
    requires a in names && b in names && Below(a, b)
    ensures exists i, j :: (3 <= i < j < |IndexLines(names, suffix)| - 2 &&
      IndexLines(names, suffix)[i] == Anchor(a, suffix) && IndexLines(names, suffix)[j] == Anchor(b, suffix))
  {
    var ws := SortedSet(names);
    var lines := PageLines(ws, suffix);
    assert lines == IndexLines(names, suffix);
    PageLinesAt(ws, suffix);
    var i :| 0 <= i < |ws| && ws[i] == a;
    var j :| 0 <= j < |ws| && ws[j] == b;
    AscendingPositions(ws, i, j);
    assert 3 <= 3 + i < 3 + j < |lines| - 2 && lines[3 + i] == Anchor(a, suffix) && lines[3 + j] == Anchor(b, suffix);
  }

  /** No line of the header or the footer has a newline. */
  lemma FrameNoNewline()
    ensures forall line :: line in Header + Footer ==> !HasChar(line, '\n')
  {
  }

  /** The page, read back line by line, gives its lines. */
  lemma IndexPageReadBack(names: set<string>, suffix: string)
    requires forall n :: n in names ==> !HasChar(n, '\n')
    requires !HasChar(suffix, '\n')
    ensures Split(Join(IndexLines(names, suffix), "\n"), "\n") == IndexLines(names, suffix)
  {
    var ws := SortedSet(names);
    var lines := PageLines(ws, suffix);
    assert lines == IndexLines(names, suffix);
    PageLinesAt(ws, suffix);
    forall k | 0 <= k < |lines| ensures !HasChar(lines[k], '\n') {
      if 3 <= k < 3 + |ws| {
        AnchorNoNewline(ws[k - 3], suffix);
      } else {
        FrameNoNewline();
      }
    }
    SplitJoinLines(lines);
  }

  /** A package directory's index lists the wheels it holds. */
  predicate IsWheel(name: string) {
    EndsWith(name, ".whl")
  }

  /** `[f for f in listing if f.endswith('.whl')]`. */
  function WheelFiles(listing: seq<string>): (r: seq<string>)
    ensures forall w :: w in r <==> w in listing && IsWheel(w)
  {
    if listing == [] then []
    else
      assert listing == [listing[0]] + listing[1..];
      (if IsWheel(listing[0]) then [listing[0]] else []) + WheelFiles(listing[1..])
  }

  ghost function Wheels(entries: set<string>): set<string> {
    set w | w in entries && IsWheel(w)
  }

  ghost function PackageIndexLines(entries: set<string>): seq<string> {
    IndexLines(Wheels(entries), "")
  }

  /** The root index lists a name when it is a directory and not hidden. */
  predicate IsPackage(repo: string, dirs: set<string>, item: string) {
    repo + "/" + item in dirs && !StartsWith(item, ".")
  }

  ghost function Packages(entries: set<string>, repo: string, dirs: set<string>): set<string> {
    set e | e in entries && IsPackage(repo, dirs, e)
  }

  ghost function RootIndexLines(entries: set<string>, repo: string, dirs: set<string>): seq<string> {
    IndexLines(Packages(entries, repo, dirs), "/")
  }

  /** The package index lists exactly the `.whl` names in the directory,
      and the root index exactly its visible subdirectories, each with a
      trailing `/` in its link. */
  lemma IndexesListExactly(files: Files, dirs: set<string>, dir: string, name: string)
    ensures Anchor(name, "") in PackageIndexLines(Entries(files, dirs, dir)) <==>
      IsWheel(name) && !HasChar(name, '/') && dir + "/" + name in files.Keys + dirs
    ensures Anchor(name, "/") in RootIndexLines(Entries(files, dirs, dir), dir, dirs) <==>
      name != "" && !HasChar(name, '/') && !StartsWith(name, ".") && dir + "/" + name in dirs
  {
    var entries := Entries(files, dirs, dir);
    IndexListsExactly(Wheels(entries), "", name);
    IndexListsExactly(Packages(entries, dir, dirs), "/", name);
    EntriesExactly(files, dirs, dir, name);
  }

  // ---------------------------------------------------------------------
  // Publishing to a local repository.

  /** `os.listdir(dir)`, in whatever order the file system returns; a
      missing directory raises. */
  method ListDir(disk: Disk, dir: string) returns (ok: bool, listing: seq<string>)
    ensures ok <==> dir in disk.dirs
    ensures forall y :: y in listing <==> ok && y in Entries(disk.files, disk.dirs, dir)
  {
    listing := [];
    if dir !in disk.dirs {
      return false, listing;
    }
    var entries := Entries(disk.files, disk.dirs, dir);
    var rest := entries;
    while rest != {}
      invariant rest <= entries
      invariant forall y :: y in listing <==> y in entries && y !in rest
      decreases |rest|
    {
      var x :| x in rest;
      listing := listing + [x];
      rest := rest - {x};
    }
    ok := true;
  }

  /** The `html_lines` list of either index, joined by newlines. */
  method RenderIndex(names: seq<string>, suffix: string) returns (page: string)
    ensures page == Join(PageLines(names, suffix), "\n")
  {
    var lines := Header;
    for i := 0 to |names|
      invariant lines == Header + Anchors(names[..i], suffix)
    {
      assert Anchors(names[..i + 1], suffix) == Anchors(names[..i], suffix) + [Anchor(names[i], suffix)];
      lines := lines + [Anchor(names[i], suffix)];
    }
    assert names[..|names|] == names;
    lines := lines + Footer;
    page := Join(lines, "\n");
  }

  /** `update_package_index(package_dir)`. */
  method UpdatePackageIndex(disk: Disk, dir: string) returns (ok: bool)
    modifies disk
    ensures ok <==> dir in old(disk.dirs)
    ensures ok ==> disk.files == old(disk.files)[dir + "/index.html" :=
      TextFile(Join(PackageIndexLines(Entries(old(disk.files), old(disk.dirs), dir)), "\n"))]
    ensures !ok ==> disk.files == old(disk.files)
    ensures disk.dirs == old(disk.dirs)
  {
    var listing;
    ok, listing := ListDir(disk, dir);
    if !ok {
      return;
    }
    var wheels := WheelFiles(listing);
    SortedListing(wheels, Wheels(Entries(disk.files, disk.dirs, dir)));
    var page := RenderIndex(SortDistinct(wheels), "");
    disk.files := disk.files[dir + "/index.html" := TextFile(page)];
  }

  /** `update_root_index(repo_path)`: the sorted listing is filtered, one
      name at a time, to the directories that are not hidden. */
  method UpdateRootIndex(disk: Disk, repo: string) returns (ok: bool)
    modifies disk
    ensures ok <==> repo in old(disk.dirs)
    ensures ok ==> disk.files == old(disk.files)[repo + "/index.html" :=
      TextFile(Join(RootIndexLines(Entries(old(disk.files), old(disk.dirs), repo), repo, old(disk.dirs)), "\n"))]
    ensures !ok ==> disk.files == old(disk.files)
    ensures disk.dirs == old(disk.dirs)
  {
    var listing;
    ok, listing := ListDir(disk, repo);
    if !ok {
      return;
    }
    var entries := Entries(disk.files, disk.dirs, repo);
    var names := SortDistinct(listing);
    var packages: seq<string> := [];
    for i := 0 to |names|
      invariant Ascending(packages)
      invariant forall p :: p in packages <==> p in names[..i] && IsPackage(repo, disk.dirs, p)
    {
      if IsPackage(repo, disk.dirs, names[i]) {
        forall k | 0 <= k < |packages| ensures Below(packages[k], names[i]) {
          assert packages[k] in packages;
          var m :| 0 <= m < i && names[..i][m] == packages[k];
          assert names[m] == packages[k];
        }
        packages := packages + [names[i]];
      }
      assert names[..i + 1] == names[..i] + [names[i]];
    }
    assert names[..|names|] == names;
    AscendingUnique(packages, SortedSet(Packages(entries, repo, disk.dirs)));
    var page := RenderIndex(packages, "/");
    disk.files := disk.files[repo + "/index.html" := TextFile(page)];
  }

  /** The files after `publish_to_local_repo`, and whether it returned:
      the copy raises when the wheel is missing or is already the target,
      and listing the repository raises when it is not a directory. */
  ghost function LocalPublish(files: Files, dirs: set<string>, wheelPath: string, packageName: string,
                              repo: string): (Files, bool)
  {
    var dir := PackageDir(repo, packageName);
    var made := MakeDirs(dirs, dir);
    var target := TargetWheel(repo, packageName, wheelPath);
    if wheelPath !in files || wheelPath == target then (files, false)
    else
      var copied := files[target := files[wheelPath]];
      var indexed := copied[dir + "/index.html" := TextFile(Join(PackageIndexLines(Entries(copied, made, dir)), "\n"))];
      if repo !in made then (indexed, false)
      else (indexed[repo + "/index.html" := TextFile(Join(RootIndexLines(Entries(indexed, made, repo), repo, made), "\n"))], true)
  }

  /** `publish_to_local_repo(wheel_path, package_name, version, repo_path)`. */
  method PublishToLocalRepo(disk: Disk, wheelPath: string, packageName: string, repo: string)
    returns (ok: bool, target: string)
    modifies disk
    ensures target == TargetWheel(repo, packageName, wheelPath)
    ensures disk.dirs == MakeDirs(old(disk.dirs), PackageDir(repo, packageName))
    ensures (disk.files, ok) == LocalPublish(old(disk.files), old(disk.dirs), wheelPath, packageName, repo)
  {
    var dir := PackageDir(repo, packageName);
    disk.EnsureDirectoryExists(dir);
    target := dir + "/" + LastName(wheelPath);
    if wheelPath !in disk.files || wheelPath == target {
      return false, target;
    }
    disk.files := disk.files[target := disk.files[wheelPath]];
    ok := UpdatePackageIndex(disk, dir);
    ok := UpdateRootIndex(disk, repo);
  }

  /** After a local publish the package index lists the new wheel and
      every wheel that was there before, and the root index lists the
      package when its directory name is visible. */
  lemma PublishedIsListed(files: Files, dirs: set<string>, wheelPath: string, packageName: string,
                          repo: string, w: string)
    requires LocalPublish(files, dirs, wheelPath, packageName, repo).1
    requires IsWheel(w)
    requires w == LastName(wheelPath) || w in Entries(files, dirs, PackageDir(repo, packageName))
    ensures var dir := PackageDir(repo, packageName);
      var made := MakeDirs(dirs, dir);
      var copied := files[TargetWheel(repo, packageName, wheelPath) := files[wheelPath]];
      Anchor(w, "") in PackageIndexLines(Entries(copied, made, dir))
  {
    var dir := PackageDir(repo, packageName);
    var made := MakeDirs(dirs, dir);
    var copied := files[TargetWheel(repo, packageName, wheelPath) := files[wheelPath]];
    EntriesExactly(copied, made, dir, w);
    if w != LastName(wheelPath) {
      EntriesGrow(files, dirs, copied, made, dir);
    }
    IndexListsExactly(Wheels(Entries(copied, made, dir)), "", w);
  }

  /** The package's directory sits in the repository under its
      normalised name, so the root index lists it whenever that name is
      visible. */
  lemma PublishedPackageIsListed(files: Files, dirs: set<string>, wheelPath: string, packageName: string,
                                 repo: string)
    requires LocalPublish(files, dirs, wheelPath, packageName, repo).1
    requires var n := NormalizeName(packageName); n != "" && !HasChar(n, '/') && !StartsWith(n, ".")
    ensures var made := MakeDirs(dirs, PackageDir(repo, packageName));
      forall fs: Files :: Anchor(NormalizeName(packageName), "/") in RootIndexLines(Entries(fs, made, repo), repo, made)
  {
    var made := MakeDirs(dirs, PackageDir(repo, packageName));
    var n := NormalizeName(packageName);
    forall fs: Files ensures Anchor(n, "/") in RootIndexLines(Entries(fs, made, repo), repo, made) {
      IndexesListExactly(fs, made, repo, n);
    }
  }

  // ---------------------------------------------------------------------
  // Remote registries (the generated copy).

  /** `registry_url.rstrip('/')`. */
  function StripSlashes(url: string): (r: string)
    ensures |r| <= |url| && r == url[..|r|]
    ensures |r| > 0 ==> r[|r| - 1] != '/'
    ensures forall i :: |r| <= i < |url| ==> url[i] == '/'
  {
    TrimEnd(url, c => c == '/')
  }

  /** Trailing slashes make no difference to where a wheel goes. */
  lemma {:induction false} StripSlashesTrailing(url: string)
    ensures StripSlashes(url + "/") == StripSlashes(url)
  {
    assert (url + "/")[..|url|] == url;
  }

  /** The upload `publish_to_remote_registry` makes: `twine upload` to
      the stripped URL when twine is installed, otherwise a POST of a
      multipart form to the stripped URL with one `/` added. */
  datatype Upload = Upload(url: string, wheelPath: string, token: string, viaTwine: bool)

  function RemoteUpload(wheelPath: string, registryUrl: string, token: string, hasTwine: bool): (r: Upload)
    ensures hasTwine ==> StartsWith(registryUrl, r.url) && !EndsWith(r.url, "/")
    ensures !hasTwine ==> (|r.url| > 0 && r.url[|r.url| - 1] == '/' &&
      StartsWith(registryUrl, r.url[..|r.url| - 1]) && !EndsWith(r.url[..|r.url| - 1], "/"))
    ensures r.wheelPath == wheelPath && r.token == token && r.viaTwine == hasTwine
  {
    var url := StripSlashes(registryUrl);
    assert (url + "/")[..|url|] == url;
    Upload(if hasTwine then url else url + "/", wheelPath, token, hasTwine)
  }

  /** Whether `--repo` names a remote registry. */
  predicate IsRemoteRepo(repo: string) {
    StartsWith(repo, "https://") || StartsWith(repo, "http://")
  }

  /** The command line: `wheel_path`, `--package-name`, `--version`,
      `--repo` and `--index-url` (absent, or possibly empty). */
  datatype Args = Args(wheelPath: string, packageName: string, version: string, repo: string,
                       indexUrl: Option<string>)

  /** Python's truth value of `args.index_url`. */
  predicate HasIndexUrl(args: Args) {
    args.indexUrl.Some? && args.indexUrl.value != ""
  }

  datatype Destination = LocalRepo | Remote(url: string)

  /** Where the generated script sends the wheel: a URL given as
      `--repo` wins, then `--index-url`, then the local repository. */
  function DestinationOf(args: Args): (r: Destination)
    ensures r.Remote? <==> IsRemoteRepo(args.repo) || HasIndexUrl(args)
    ensures IsRemoteRepo(args.repo) ==> r == Remote(args.repo)
    ensures r.Remote? && !IsRemoteRepo(args.repo) ==> r.url == args.indexUrl.value
  {
    if IsRemoteRepo(args.repo) then Remote(args.repo)
    else if HasIndexUrl(args) then Remote(args.indexUrl.value)
    else LocalRepo
  }

  /** `os.path.exists(args.wheel_path)`. */
  predicate Exists(disk: Disk, path: string)
    reads disk
  {
    path in disk.files || path in disk.dirs
  }

  /** `main()` of `pypi_publisher.py`: a missing wheel exits 1, an
      `--index-url` exits 1 since remote upload is not implemented there,
      and otherwise the wheel is published locally, any exception giving
      exit status 1. */
  method MainLegacy(disk: Disk, args: Args) returns (exit: int)
    modifies disk
    ensures !old(Exists(disk, args.wheelPath)) || HasIndexUrl(args) ==>
      exit == 1 && disk.files == old(disk.files) && disk.dirs == old(disk.dirs)
    ensures old(Exists(disk, args.wheelPath)) && !HasIndexUrl(args) ==>
      var r := LocalPublish(old(disk.files), old(disk.dirs), args.wheelPath, args.packageName, args.repo);
      disk.files == r.0 && disk.dirs == MakeDirs(old(disk.dirs), PackageDir(args.repo, args.packageName)) &&
      exit == (if r.1 then 0 else 1)
  {
    if !Exists(disk, args.wheelPath) || HasIndexUrl(args) {
      return 1;
    }
    var ok, _ := PublishToLocalRepo(disk, args.wheelPath, args.packageName, args.repo);
    exit := if ok then 0 else 1;
  }

  /** `main()` of the generated copy. `token` is `REGISTRY_TOKEN` (empty
      when unset), `hasTwine` whether `twine --version` succeeds, and
      `accepted` whether the registry takes the upload. A remote
      destination needs a token; without one nothing is uploaded. */
  method MainGenerated(disk: Disk, args: Args, token: string, hasTwine: bool, accepted: bool)
    returns (exit: int, upload: Option<Upload>)
    modifies disk
    ensures !old(Exists(disk, args.wheelPath)) ==>
      exit == 1 && upload == None && disk.files == old(disk.files) && disk.dirs == old(disk.dirs)
    ensures old(Exists(disk, args.wheelPath)) && DestinationOf(args).Remote? ==>
      disk.files == old(disk.files) && disk.dirs == old(disk.dirs) &&
      (token == "" ==> exit == 1 && upload == None) &&
      (token != "" ==> upload == Some(RemoteUpload(args.wheelPath, DestinationOf(args).url, token, hasTwine)) &&
                       exit == (if accepted then 0 else 1))
    ensures old(Exists(disk, args.wheelPath)) && DestinationOf(args) == LocalRepo ==>
      var r := LocalPublish(old(disk.files), old(disk.dirs), args.wheelPath, args.packageName, args.repo);
      upload == None && disk.files == r.0 &&
      disk.dirs == MakeDirs(old(disk.dirs), PackageDir(args.repo, args.packageName)) &&
      exit == (if r.1 then 0 else 1)
  {
    upload := None;
    if !Exists(disk, args.wheelPath) {
      return 1, upload;
    }
    match DestinationOf(args)
    case Remote(url) =>
      if token == "" {
        return 1, upload;
      }
      upload := Some(RemoteUpload(args.wheelPath, url, token, hasTwine));
      exit := if accepted then 0 else 1;
    case LocalRepo =>
      var ok, _ := PublishToLocalRepo(disk, args.wheelPath, args.packageName, args.repo);
      exit := if ok then 0 else 1;
  }
}
