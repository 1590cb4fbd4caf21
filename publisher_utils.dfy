/** The helpers the publishers share (`publisher_utils.py`, and its
    generated copy, which differs only in a header line): directory
    creation, checksum side-files, and the local `maven-metadata-local.xml`
    ledger, which is rebuilt from a sorted set of versions on every
    publish. */
module PublisherUtils {
  import opened Text
  import opened Sorting
  import opened XmlTree
  import opened RepoFiles

  // ---------------------------------------------------------------------
  // Directories.

  /** The directory a path sits in, when it has one below the root. */
  function ParentDir(path: string): (r: Option<string>)
    ensures r.Some? ==> |r.value| < |path| && r.value != ""
  {
    match SplitLast(path, '/')
    case Some((head, _)) => if head == "" then None else Some(head)
    case None => None
  }

  /** A path and every directory above it: what `mkdir(parents=True)`
      makes exist. */
  function WithParents(path: string): (r: set<string>)
    decreases |path|
  {
    {path} + match ParentDir(path)
      case Some(up) => WithParents(up)
      case None => {}
  }

  /** A set of directories in which every directory's parent is present:
      what a file system holds. */
  predicate Closed(dirs: set<string>) {
    forall d :: d in dirs && ParentDir(d).Some? ==> ParentDir(d).value in dirs
  }

  /** A directory of a closed set brings all its ancestors with it. */
  lemma {:induction false} ClosedHasParents(dirs: set<string>, path: string)
    requires Closed(dirs) && path in dirs
    ensures WithParents(path) <= dirs
    decreases |path|
  {
    match ParentDir(path)
    case Some(up) => ClosedHasParents(dirs, up);
    case None =>
  }

  lemma {:induction false} WithParentsClosed(path: string)
    ensures Closed(WithParents(path))
    decreases |path|
  {
    match ParentDir(path)
    case Some(up) =>
      WithParentsClosed(up);
      assert WithParents(path) == {path} + WithParents(up);
    case None =>
      assert WithParents(path) == {path};
  }

  /** `ensure_directory_exists(path)`: `mkdir(parents=True, exist_ok=True)`. */
  function MakeDirs(dirs: set<string>, path: string): (r: set<string>)
    ensures path in r && dirs <= r
    ensures Closed(dirs) ==> Closed(r)
  {
    WithParentsClosed(path);
    dirs + WithParents(path)
  }

  /** `exist_ok=True`: making a directory that exists changes nothing, so
      a second call is a no-op. */
  lemma MakeDirsExisting(dirs: set<string>, path: string)
    requires Closed(dirs) && path in dirs
    ensures MakeDirs(dirs, path) == dirs
  {
    ClosedHasParents(dirs, path);
  }

  lemma MakeDirsIdempotent(dirs: set<string>, path: string)
    requires Closed(dirs)
    ensures MakeDirs(MakeDirs(dirs, path), path) == MakeDirs(dirs, path)
  {
    MakeDirsExisting(MakeDirs(dirs, path), path);
  }

  // ---------------------------------------------------------------------
  // `create_maven_metadata`.

  /** One `<version>` element per version, in the order given. */
  function VersionElements(versions: seq<string>): (r: seq<Element>)
    ensures |r| == |versions|
    ensures forall i :: 0 <= i < |r| ==> r[i] == TextElement("version", versions[i])
  {
    if versions == [] then [] else [TextElement("version", versions[0])] + VersionElements(versions[1..])
  }

  /** `<versions>`: one `<version>` per distinct version, ascending. */
  function VersionsElement(versions: seq<string>): Element {
    Element("versions", [], None, VersionElements(SortDistinct(versions)))
  }

  /** `<versioning>`: `latest` as both `latest` and `release`, the
      versions, and the time of writing. */
  function VersioningElement(versions: seq<string>, latest: string, timestamp: string): Element {
    Element("versioning", [], None, [TextElement("latest", latest), TextElement("release", latest),
                                     VersionsElement(versions), TextElement("lastUpdated", timestamp)])
  }

  /** The document `create_maven_metadata(groupId, artifactId, versions,
      latest)` writes, with the clock reading `timestamp` as
      `lastUpdated`. */
  function MavenMetadata(groupId: string, artifactId: string, versions: seq<string>, latest: string,
                         timestamp: string): Element
  {
    Element("metadata", [], None, [TextElement("groupId", groupId), TextElement("artifactId", artifactId),
                                   VersioningElement(versions, latest, timestamp)])
  }

  /** Each version wrapped in `Some`: the texts of elements that have one. */
  function Somes(versions: seq<string>): (r: seq<Option<string>>)
    ensures |r| == |versions| && forall i :: 0 <= i < |r| ==> r[i] == Some(versions[i])
  {
    if versions == [] then [] else [Some(versions[0])] + Somes(versions[1..])
  }

  lemma SomesMembers(versions: seq<string>)
    ensures forall v :: Some(v) in Somes(versions) <==> v in versions
    ensures None !in Somes(versions)
  {
    forall v ensures Some(v) in Somes(versions) <==> v in versions {
      if v in versions {
        var i :| 0 <= i < |versions| && versions[i] == v;
        assert Somes(versions)[i] == Some(v);
      }
    }
  }

  lemma {:induction false} TextsOfVersionElements(versions: seq<string>)
    ensures Texts(VersionElements(versions), "version") == Somes(versions)
  {
    if versions != [] {
      assert VersionElements(versions)[1..] == VersionElements(versions[1..]);
      TextsOfVersionElements(versions[1..]);
    }
  }

  /** Children without children of their own: the `.//tag` search over
      them is the `findall(tag)` over them. */
  lemma {:induction false} DescendantsOfLeaves(e: Element, i: nat, tag: string)
    requires i <= |e.children|
    requires forall j :: i <= j < |e.children| ==> e.children[j].children == []
    ensures DescendantsFrom(e, i, tag) == Texts(e.children[i..], tag)
    decreases |e.children| - i
  {
    if i < |e.children| {
      LeafDescendants(e.children[i], tag);
      DescendantsOfLeaves(e, i + 1, tag);
      assert e.children[i..][1..] == e.children[i + 1..];
    } else {
      assert e.children[i..] == [];
    }
  }

  lemma LeafDescendants(e: Element, tag: string)
    requires e.children == []
    ensures Descendants(e, tag) == []
  {
    assert DescendantsFrom(e, 0, tag) == [];
  }

  /** When all children but the `k`-th are leaves and none of them has
      the tag, the `.//tag` search finds only what lies below the `k`-th. */
  lemma {:induction false} DescendantsBelowOne(e: Element, i: nat, k: nat, tag: string)
    requires i <= |e.children| && k < |e.children| && e.children[k].tag != tag
    requires forall j :: 0 <= j < |e.children| && j != k ==> e.children[j].children == [] && e.children[j].tag != tag
    ensures DescendantsFrom(e, i, tag) == if i <= k then Descendants(e.children[k], tag) else []
    decreases |e.children| - i
  {
    if i < |e.children| {
      var c := e.children[i];
      assert c.tag != tag;
      assert DescendantsFrom(e, i, tag) == Descendants(c, tag) + DescendantsFrom(e, i + 1, tag);
      DescendantsBelowOne(e, i + 1, k, tag);
      if i != k {
        LeafDescendants(c, tag);
      }
    }
  }

  /** The `.//version` search under `<versioning>` finds the versions
      once each, ascending. */
  lemma VersioningReadBack(versions: seq<string>, latest: string, timestamp: string)
    ensures Descendants(VersioningElement(versions, latest, timestamp), "version") == Somes(SortDistinct(versions))
  {
    var v := VersioningElement(versions, latest, timestamp);
    var listed := VersionsElement(versions);
    DescendantsOfLeaves(listed, 0, "version");
    assert listed.children[0..] == listed.children;
    TextsOfVersionElements(SortDistinct(versions));
    assert "version"[0] != "latest"[0] && "version"[0] != "release"[0] && "version"[0] != "lastUpdated"[0];
    assert "version" != "versions";
    DescendantsBelowOne(v, 0, 2, "version");
  }

  /** The `<versioning>` element of a metadata document. */
  function VersioningIn(doc: Element): Option<Element> {
    Child(doc, "versioning")
  }

  lemma MetadataVersioning(groupId: string, artifactId: string, versions: seq<string>, latest: string, timestamp: string)
    ensures VersioningIn(MavenMetadata(groupId, artifactId, versions, latest, timestamp)) ==
      Some(VersioningElement(versions, latest, timestamp))
  {
    var doc := MavenMetadata(groupId, artifactId, versions, latest, timestamp);
    assert "groupId"[0] != "versioning"[0] && "artifactId"[0] != "versioning"[0];
    FindChildFirst(doc.children, 2, "versioning");
  }

  /** `latest` and `release` are the version given, wherever it sorts. */
  lemma MetadataLatest(versions: seq<string>, latest: string, timestamp: string)
    ensures var v := VersioningElement(versions, latest, timestamp);
      ChildText(v, "latest") == Some(latest) && ChildText(v, "release") == Some(latest)
  {
    var v := VersioningElement(versions, latest, timestamp);
    FindChildFirst(v.children, 0, "latest");
    assert "latest"[0] != "release"[0];
    FindChildFirst(v.children, 1, "release");
  }

  /** The version just published is `latest` even when an older one sorts
      after it: recency wins over order, so the last version listed is
      then not the latest. */
  lemma LatestIsNewestPublish(versions: seq<string>, latest: string, timestamp: string, older: string)
    requires older in versions && Below(latest, older)
    ensures var v := VersioningElement(versions + [latest], latest, timestamp);
      var listed := Descendants(v, "version");
      ChildText(v, "latest") == Some(latest) && listed != [] && listed[|listed| - 1] != Some(latest)
  {
    MetadataLatest(versions + [latest], latest, timestamp);
    VersioningReadBack(versions + [latest], latest, timestamp);
    var sorted := SortDistinct(versions + [latest]);
    assert older in versions + [latest];
    var k :| 0 <= k < |sorted| && sorted[k] == older;
    assert k < |sorted| - 1 ==> Below(older, sorted[|sorted| - 1]);
    BelowAsym(latest, older);
  }

  // ---------------------------------------------------------------------
  // `update_local_maven_metadata`.

  /** `Path(repo) / os.path.join(*groupId.split('.')) / artifactId`. */
  function LocalArtifactBase(repo: string, groupId: string, artifactId: string): string {
    repo + "/" + Join(Split(groupId, "."), "/") + "/" + artifactId
  }

  function LocalLedgerPath(repo: string, groupId: string, artifactId: string): string {
    LocalArtifactBase(repo, groupId, artifactId) + "/maven-metadata-local.xml"
  }

  /** The ledger sits in the directory the Maven publisher lays the
      artifact out under: the group's dots become directory separators. */
  lemma LocalLedgerLayout(repo: string, groupId: string, artifactId: string)
    ensures LocalLedgerPath(repo, groupId, artifactId) ==
      repo + "/" + ReplaceChar(groupId, '.', '/') + "/" + artifactId + "/maven-metadata-local.xml"
  {
    JoinSplitReplace(groupId, '.', '/');
  }

  /** The `.//version` texts under `<versioning>` of the ledger at `path`:
      none when there is no ledger, no `<versioning>`, or a childless one
      (an element without children is false in Python); nothing at all
      when the file does not parse, which raises. */
  function ExistingVersionTexts(files: Files, path: string): Option<seq<Option<string>>> {
    if path !in files then Some([])
    else if !files[path].XmlDoc? then None
    else match VersioningIn(files[path].root)
      case Some(v) => if v.children != [] then Some(Descendants(v, "version")) else Some([])
      case None => Some([])
  }

  /** The versions as strings, or nothing when an element had no text:
      `sorted` of a set holding `None` and a string raises `TypeError`. */
  function KnownVersions(texts: seq<Option<string>>): (r: Option<seq<string>>)
    ensures r.Some? <==> None !in texts
    ensures r.Some? ==> forall v :: v in r.value <==> Some(v) in texts
  {
    if texts == [] then Some([])
    else
      assert forall t :: t in texts <==> t == texts[0] || t in texts[1..];
      match (texts[0], KnownVersions(texts[1..]))
      case (Some(v), Some(rest)) => Some([v] + rest)
      case _ => None
  }

  lemma {:induction false} KnownVersionsSomes(versions: seq<string>)
    ensures KnownVersions(Somes(versions)) == Some(versions)
  {
    if versions != [] {
      assert Somes(versions)[1..] == Somes(versions[1..]);
      KnownVersionsSomes(versions[1..]);
      assert [versions[0]] + versions[1..] == versions;
    }
  }

  /** The repository after `update_local_maven_metadata(repo, groupId,
      artifactId, version)` run at `timestamp`, or nothing when it raises:
      an unparseable ledger, a version element without text, or a missing
      artifact directory (`write_text` does not create it). */
  function WithLocalMetadata(files: Files, dirs: set<string>, repo: string, groupId: string, artifactId: string,
                             version: string, timestamp: string): Option<Files>
  {
    var path := LocalLedgerPath(repo, groupId, artifactId);
    match ExistingVersionTexts(files, path)
    case None => None
    case Some(texts) =>
      match KnownVersions(texts)
      case None => None
      case Some(known) =>
        if LocalArtifactBase(repo, groupId, artifactId) !in dirs then None
        else Some(WriteWithChecksums(files, path, XmlDoc(MavenMetadata(groupId, artifactId, known + [version], version, timestamp))))
  }

  /** A ledger this module wrote reads back as its versions, ascending. */
  lemma ReadBackLedger(files: Files, path: string, groupId: string, artifactId: string, versions: seq<string>,
                       latest: string, timestamp: string)
    requires path in files && files[path] == XmlDoc(MavenMetadata(groupId, artifactId, versions, latest, timestamp))
    ensures ExistingVersionTexts(files, path) == Some(Somes(SortDistinct(versions)))
  {
    MetadataVersioning(groupId, artifactId, versions, latest, timestamp);
    VersioningReadBack(versions, latest, timestamp);
  }

  /** After an update the ledger lists the versions it listed before and
      the new one, and nothing else. */
  lemma LocalMetadataVersionSet(files: Files, dirs: set<string>, repo: string, groupId: string, artifactId: string,
                                version: string, timestamp: string)
    requires WithLocalMetadata(files, dirs, repo, groupId, artifactId, version, timestamp).Some?
    ensures var path := LocalLedgerPath(repo, groupId, artifactId);
      var after := WithLocalMetadata(files, dirs, repo, groupId, artifactId, version, timestamp).value;
      var read := ExistingVersionTexts(after, path);
      read.Some? && forall v :: Some(v) in read.value <==> v == version || Some(v) in ExistingVersionTexts(files, path).value
  {
    var path := LocalLedgerPath(repo, groupId, artifactId);
    var known := KnownVersions(ExistingVersionTexts(files, path).value).value;
    WithLocalMetadataOf(files, dirs, repo, groupId, artifactId, version, timestamp, known);
    var after := WithLocalMetadata(files, dirs, repo, groupId, artifactId, version, timestamp).value;
    ReadBackLedger(after, path, groupId, artifactId, known + [version], version, timestamp);
    SomesMembers(SortDistinct(known + [version]));
  }

  /** Listing a version that is already there changes no version entry. */
  lemma AddListedVersion(known: seq<string>, version: string)
    requires version in known
    ensures SortDistinct(known + [version]) == SortDistinct(known)
  {
    SortDistinctSameElements(known + [version], known);
  }

  /** The update, once the versions listed before are known to be `known`. */
  lemma WithLocalMetadataOf(files: Files, dirs: set<string>, repo: string, groupId: string, artifactId: string,
                            version: string, timestamp: string, known: seq<string>)
    requires var texts := ExistingVersionTexts(files, LocalLedgerPath(repo, groupId, artifactId));
      texts.Some? && KnownVersions(texts.value) == Some(known)
    requires LocalArtifactBase(repo, groupId, artifactId) in dirs
    ensures WithLocalMetadata(files, dirs, repo, groupId, artifactId, version, timestamp) ==
      Some(WriteWithChecksums(files, LocalLedgerPath(repo, groupId, artifactId),
                              XmlDoc(MavenMetadata(groupId, artifactId, known + [version], version, timestamp))))
  {
  }

  /** The document depends on the versions only as a set. */
  lemma MavenMetadataSameElements(groupId: string, artifactId: string, xs: seq<string>, ys: seq<string>,
                                  latest: string, timestamp: string)
    requires forall y :: y in xs <==> y in ys
    ensures MavenMetadata(groupId, artifactId, xs, latest, timestamp) == MavenMetadata(groupId, artifactId, ys, latest, timestamp)
  {
    SortDistinctSameElements(xs, ys);
  }

  /** Updating a ledger this module wrote, with a version it lists, writes
      the same versions again. */
  lemma UpdateWrittenLedger(files: Files, dirs: set<string>, repo: string, groupId: string, artifactId: string,
                            versions: seq<string>, version: string, first: string, second: string)
    requires var path := LocalLedgerPath(repo, groupId, artifactId);
      path in files && files[path] == XmlDoc(MavenMetadata(groupId, artifactId, versions, version, first))
    requires version in versions && LocalArtifactBase(repo, groupId, artifactId) in dirs
    ensures WithLocalMetadata(files, dirs, repo, groupId, artifactId, version, second) ==
      Some(WriteWithChecksums(files, LocalLedgerPath(repo, groupId, artifactId),
                              XmlDoc(MavenMetadata(groupId, artifactId, versions, version, second))))
  {
    var path := LocalLedgerPath(repo, groupId, artifactId);
    var sorted := SortDistinct(versions);
    ReadBackLedger(files, path, groupId, artifactId, versions, version, first);
    KnownVersionsSomes(sorted);
    WithLocalMetadataOf(files, dirs, repo, groupId, artifactId, version, second, sorted);
    MavenMetadataSameElements(groupId, artifactId, sorted + [version], versions, version, second);
  }

  /** Publishing the same version again rewrites the ledger as if the first
      publish had happened at the later time only. */
  lemma LocalMetadataRepeat(files: Files, dirs: set<string>, repo: string, groupId: string, artifactId: string,
                            version: string, first: string, second: string)
    requires WithLocalMetadata(files, dirs, repo, groupId, artifactId, version, first).Some?
    ensures var once := WithLocalMetadata(files, dirs, repo, groupId, artifactId, version, first).value;
      WithLocalMetadata(once, dirs, repo, groupId, artifactId, version, second) ==
        WithLocalMetadata(files, dirs, repo, groupId, artifactId, version, second)
  {
    var path := LocalLedgerPath(repo, groupId, artifactId);
    var known := KnownVersions(ExistingVersionTexts(files, path).value).value;
    var earlier := XmlDoc(MavenMetadata(groupId, artifactId, known + [version], version, first));
    var later := XmlDoc(MavenMetadata(groupId, artifactId, known + [version], version, second));
    WithLocalMetadataOf(files, dirs, repo, groupId, artifactId, version, first, known);
    WithLocalMetadataOf(files, dirs, repo, groupId, artifactId, version, second, known);
    var once := WriteWithChecksums(files, path, earlier);
    UpdateWrittenLedger(once, dirs, repo, groupId, artifactId, known + [version], version, first, second);
    WriteWithChecksumsAgain(files, path, earlier, later);
  }

  /** The set the script gathers, kept as its ascending list, gives the
      ledger the update specifies. */
  lemma CollectedVersions(files: Files, dirs: set<string>, repo: string, groupId: string, artifactId: string,
                          version: string, timestamp: string, found: seq<Option<string>>, versions: seq<string>)
    requires ExistingVersionTexts(files, LocalLedgerPath(repo, groupId, artifactId)) == Some(found)
    requires None !in found && LocalArtifactBase(repo, groupId, artifactId) in dirs
    requires forall v :: v in versions <==> v == version || Some(v) in found
    ensures WithLocalMetadata(files, dirs, repo, groupId, artifactId, version, timestamp) ==
      Some(WriteWithChecksums(files, LocalLedgerPath(repo, groupId, artifactId),
                              XmlDoc(MavenMetadata(groupId, artifactId, versions, version, timestamp))))
  {
    var known := KnownVersions(found).value;
    WithLocalMetadataOf(files, dirs, repo, groupId, artifactId, version, timestamp, known);
    MavenMetadataSameElements(groupId, artifactId, versions, known + [version], version, timestamp);
  }

  // ---------------------------------------------------------------------
  // The file system the helpers work on.

  class Disk {
    var files: Files
    var dirs: set<string>

    constructor (files: Files, dirs: set<string>)
      ensures this.files == files && this.dirs == dirs
    {
      this.files := files;
      this.dirs := dirs;
    }

    /** `ensure_directory_exists(path)`. */
    method EnsureDirectoryExists(path: string)
      modifies this
      ensures dirs == MakeDirs(old(dirs), path) && files == old(files)
    {
      dirs := MakeDirs(dirs, path);
    }

    /** `generate_checksums(path)`: reading a missing file raises before
        anything is written; otherwise `<path>.md5` and `<path>.sha1`. */
    method GenerateChecksums(path: string) returns (ok: bool)
      modifies this
      ensures ok <==> path in old(files)
      ensures ok ==> files == WithChecksums(old(files), path)
      ensures !ok ==> files == old(files)
      ensures dirs == old(dirs)
    {
      if path !in files {
        return false;
      }
      var content := files[path];
      assert path + ".md5" == ChecksumPath(path, Md5) && path + ".sha1" == ChecksumPath(path, Sha1);
      files := files[path + ".md5" := Digest(Md5, content)];
      files := files[path + ".sha1" := Digest(Sha1, content)];
      ok := true;
    }

    /** `update_local_maven_metadata(repo, groupId, artifactId, version)`
        with the clock reading `timestamp`: the listed versions are
        gathered into a set (kept here as its ascending list), the new one
        added, and the ledger and its checksums rewritten. */
    method UpdateLocalMavenMetadata(repo: string, groupId: string, artifactId: string, version: string,
                                    timestamp: string) returns (ok: bool)
      modifies this
      ensures var r := WithLocalMetadata(old(files), old(dirs), repo, groupId, artifactId, version, timestamp);
        (ok <==> r.Some?) && files == (if ok then r.value else old(files))
      ensures dirs == old(dirs)
    {
      var base := LocalArtifactBase(repo, groupId, artifactId);
      var path := base + "/maven-metadata-local.xml";
      var found: seq<Option<string>> := [];
      if path in files {
        if !files[path].XmlDoc? {
          return false;
        }
        var versioning := Child(files[path].root, "versioning");
        if versioning.Some? && versioning.value.children != [] {
          found := Descendants(versioning.value, "version");
        }
      }
      assert ExistingVersionTexts(files, path) == Some(found);
      var versions: seq<string> := [];
      var sawNone := false;
      for i := 0 to |found|
        invariant Ascending(versions)
        invariant forall v :: v in versions <==> Some(v) in found[..i]
        invariant sawNone <==> None in found[..i]
      {
        assert found[..i + 1] == found[..i] + [found[i]];
        match found[i]
        case None => sawNone := true;
        case Some(v) => versions := Insert(v, versions);
      }
      assert found[..|found|] == found;
      versions := Insert(version, versions);
      if sawNone || base !in dirs {
        return false;
      }
      CollectedVersions(files, dirs, repo, groupId, artifactId, version, timestamp, found, versions);
      files := files[path := XmlDoc(MavenMetadata(groupId, artifactId, versions, version, timestamp))];
      ok := GenerateChecksums(path);
    }
  }
}
