/** The Maven publisher (`maven_publisher.py`): copies a bundle jar into a
    local Maven repository at `<repo>/<group path>/<artifactId>/<version>/`,
    writes a minimal POM beside it, `.md5`/`.sha1` side files for both, and
    records the version in the artifact's `maven-metadata.xml` ledger. */
module MavenPublisher {
  import opened Text
  import opened XmlTree
  import opened RepoFiles

  // ---------------------------------------------------------------------
  // The POM.

  function PomAttributes(): seq<(string, string)> {
    [("xmlns", "http://maven.apache.org/POM/4.0.0"),
     ("xmlns:xsi", "http://www.w3.org/2001/" + "XMLSchema-instance"),
     ("xsi:schemaLocation", "http://maven.apache.org/POM/4.0.0 " + "http://maven.apache.org/xsd/" + "maven-4.0.0.xsd")]
  }

  /** The one dependency every generated POM declares. */
  function ProtobufDependency(): Element {
    Element("dependency", [], None,
      [TextElement("groupId", "com.google.protobuf"),
       TextElement("artifactId", "protobuf-java"),
       TextElement("version", "3.25.3")])
  }

  /** `generate_pom` as the element tree it serialises; a description is
      written only when it is a non-empty string. */
  function GeneratePom(groupId: string, artifactId: string, version: string, description: Option<string>): Element {
    var coordinates := [TextElement("modelVersion", "4.0.0"), TextElement("groupId", groupId),
                        TextElement("artifactId", artifactId), TextElement("version", version),
                        TextElement("packaging", "jar")];
    var described := if description.Some? && description.value != "" then [TextElement("description", description.value)] else [];
    Element("project", PomAttributes(), None,
      coordinates + described + [Element("dependencies", [], None, [ProtobufDependency()])])
  }

  /** The description `publish_to_local_repo` passes. */
  function Description(artifactId: string): string {
    "Proto definitions for " + artifactId
  }

  /** Reading the coordinates back out of the POM gives what went in. */
  lemma PomCoordinates(groupId: string, artifactId: string, version: string, description: Option<string>)
    ensures var pom := GeneratePom(groupId, artifactId, version, description);
      pom.tag == "project" &&
      ChildText(pom, "modelVersion") == Some("4.0.0") &&
      ChildText(pom, "groupId") == Some(groupId) &&
      ChildText(pom, "artifactId") == Some(artifactId) &&
      ChildText(pom, "version") == Some(version) &&
      ChildText(pom, "packaging") == Some("jar")
  {
    var cs := GeneratePom(groupId, artifactId, version, description).children;
    assert cs[0].tag == "modelVersion" && cs[1].tag == "groupId" && cs[2].tag == "artifactId";
    assert cs[3].tag == "version" && cs[4].tag == "packaging";
    FindChildFirst(cs, 0, "modelVersion");
    FindChildFirst(cs, 1, "groupId");
    FindChildFirst(cs, 2, "artifactId");
    assert "version"[0] != "groupId"[0];
    FindChildFirst(cs, 3, "version");
    FindChildFirst(cs, 4, "packaging");
  }

  /** The description is there exactly when a non-empty one was given. */
  lemma PomDescription(groupId: string, artifactId: string, version: string, description: Option<string>)
    ensures ChildText(GeneratePom(groupId, artifactId, version, description), "description")
         == if description.Some? && description.value != "" then description else None
  {
    var cs := GeneratePom(groupId, artifactId, version, description).children;
    assert "description"[2] != "dependencies"[2];
    if description.Some? && description.value != "" {
      FindChildFirst(cs, 5, "description");
    } else {
      assert |cs| == 6 && cs[5].tag == "dependencies";
      assert forall j :: 0 <= j < |cs| ==> cs[j].tag != "description";
    }
  }

  /** Every POM depends on `com.google.protobuf:protobuf-java:3.25.3` and
      on nothing else. */
  lemma PomDependency(groupId: string, artifactId: string, version: string, description: Option<string>)
    ensures var deps := Child(GeneratePom(groupId, artifactId, version, description), "dependencies");
      deps.Some? && |deps.value.children| == 1 &&
      var dep := deps.value.children[0];
      dep.tag == "dependency" &&
      ChildText(dep, "groupId") == Some("com.google.protobuf") &&
      ChildText(dep, "artifactId") == Some("protobuf-java") &&
      ChildText(dep, "version") == Some("3.25.3")
  {
    var cs := GeneratePom(groupId, artifactId, version, description).children;
    assert "dependencies"[0] != "modelVersion"[0];
    assert "description"[2] != "dependencies"[2];
    FindChildFirst(cs, |cs| - 1, "dependencies");
    var ds := ProtobufDependency().children;
    FindChildFirst(ds, 0, "groupId");
    FindChildFirst(ds, 1, "artifactId");
    assert "version"[0] != "groupId"[0];
    FindChildFirst(ds, 2, "version");
  }

  // ---------------------------------------------------------------------
  // Repository layout.

  /** `group_id.replace('.', '/')`. */
  function GroupPath(groupId: string): string {
    ReplaceChar(groupId, '.', '/')
  }

  /** The directory that holds the ledger of every version of an artifact. */
  function ArtifactBase(repo: string, groupId: string, artifactId: string): string {
    repo + "/" + GroupPath(groupId) + "/" + artifactId
  }

  function ArtifactDir(repo: string, groupId: string, artifactId: string, version: string): string {
    ArtifactBase(repo, groupId, artifactId) + "/" + version
  }

  function JarPath(repo: string, groupId: string, artifactId: string, version: string): string {
    ArtifactDir(repo, groupId, artifactId, version) + "/" + artifactId + "-" + version + ".jar"
  }

  function PomPath(repo: string, groupId: string, artifactId: string, version: string): string {
    ArtifactDir(repo, groupId, artifactId, version) + "/" + artifactId + "-" + version + ".pom"
  }

  function LedgerPath(dir: string): string {
    dir + "/maven-metadata.xml"
  }

  /** The jar, the POM and their four checksum files are six different
      files, so no step of a publish overwrites another. */
  lemma ArtifactPathsDistinct(repo: string, groupId: string, artifactId: string, version: string)
    ensures var jar, pom := JarPath(repo, groupId, artifactId, version), PomPath(repo, groupId, artifactId, version);
      jar != pom &&
      jar != ChecksumPath(pom, Md5) && jar != ChecksumPath(pom, Sha1) &&
      pom != ChecksumPath(jar, Md5) && pom != ChecksumPath(jar, Sha1) &&
      ChecksumPath(jar, Md5) != ChecksumPath(pom, Md5) && ChecksumPath(jar, Sha1) != ChecksumPath(pom, Sha1) &&
      ChecksumPath(jar, Md5) != ChecksumPath(pom, Sha1) && ChecksumPath(jar, Sha1) != ChecksumPath(pom, Md5)
  {
    var jar, pom := JarPath(repo, groupId, artifactId, version), PomPath(repo, groupId, artifactId, version);
    assert jar[|jar| - 1] != pom[|pom| - 1];
    ChecksumPathInjective(jar, Md5, pom, Md5);
    ChecksumPathInjective(jar, Sha1, pom, Sha1);
    ChecksumPathInjective(jar, Md5, pom, Sha1);
    ChecksumPathInjective(jar, Sha1, pom, Md5);
    var jm, js := ChecksumPath(jar, Md5), ChecksumPath(jar, Sha1);
    var pm, ps := ChecksumPath(pom, Md5), ChecksumPath(pom, Sha1);
    assert jar[|jar| - 1] != pm[|pm| - 1] && jar[|jar| - 1] != ps[|ps| - 1];
    assert pom[|pom| - 1] != jm[|jm| - 1] && pom[|pom| - 1] != js[|js| - 1];
  }

  /** Two versions without `/` in them have directories neither of which
      contains the other, so publishing one version never writes into the
      directory of another. */
  lemma VersionDirsDisjoint(base: string, v: string, w: string, p: string)
    requires !HasChar(v, '/') && !HasChar(w, '/')
    ensures StartsWith(p, base + "/" + v + "/") && StartsWith(p, base + "/" + w + "/") ==> v == w
  {
    var pv, pw := base + "/" + v + "/", base + "/" + w + "/";
    if StartsWith(p, pv) && StartsWith(p, pw) {
      var n := |base| + 1;
      var q := p[n..];
      assert p == pv + p[|pv|..];
      assert q == v + ['/'] + p[|pv|..];
      assert p == pw + p[|pw|..];
      assert q == w + ['/'] + p[|pw|..];
      SplitFirstAtChar(v, '/', p[|pv|..]);
      SplitFirstAtChar(w, '/', p[|pw|..]);
    }
  }

  // ---------------------------------------------------------------------
  // The `maven-metadata.xml` ledger.

  /** `versioning.find("versions")`'s `<version>` texts, or nothing. */
  function Versions(root: Element): seq<Option<string>> {
    match Child(root, "versioning")
    case None => []
    case Some(versioning) => VersionTexts(versioning)
  }

  function VersionTexts(versioning: Element): seq<Option<string>> {
    match Child(versioning, "versions")
    case None => []
    case Some(versions) => Texts(versions.children, "version")
  }

  function Latest(root: Element): Option<string> {
    match Child(root, "versioning")
    case None => None
    case Some(versioning) => ChildText(versioning, "latest")
  }

  function Release(root: Element): Option<string> {
    match Child(root, "versioning")
    case None => None
    case Some(versioning) => ChildText(versioning, "release")
  }

  /** The ledger created when there is none, recording `groupText` as
      its group id. */
  function FreshLedger(groupText: string, artifactId: string): Element {
    Element("metadata", [], None, [TextElement("groupId", groupText), TextElement("artifactId", artifactId)])
  }

  /** `Path(p).parent.name` for a path with no trailing `/`. */
  function ParentName(p: string): string {
    match SplitLast(p, '/')
    case None => ""
    case Some((parent, _)) => LastName(parent)
  }

  lemma ParentNameOf(parent: string, name: string)
    requires !HasChar(name, '/')
    ensures ParentName(parent + "/" + name) == LastName(parent)
  {
    SplitLastConcat(parent, '/', name);
  }

  /** The group path of `front.last` is that of `front`, a `/`, and `last`. */
  lemma GroupPathSplit(groupId: string, front: string, last: string)
    requires groupId == front + "." + last && !HasChar(last, '.')
    ensures GroupPath(groupId) == GroupPath(front) + "/" + last
  {
    ReplaceCharConcat(front, "." + last, '.', '/');
    ReplaceCharConcat(".", last, '.', '/');
    ReplaceCharAbsent(last, '.', '/');
  }

  /** The group id `update_maven_metadata` writes into a fresh ledger in
      `dir`, as written: the name of the directory above the artifact's,
      which is only the last segment of a dotted group id. */
  function GroupIdAsWritten(dir: string): string {
    ParentName(dir)
  }

  /** `child = e.find(tag)`, created at the end when missing, then
      `child.text = text`. */
  function SetText(e: Element, tag: string, text: string): (r: Element)
    ensures OnlyChanges(e, r, tag)
    ensures ChildText(r, tag) == Some(text)
  {
    match FindChild(e.children, tag)
    case Some(i) => ReplaceChild(e, i, e.children[i].(text := Some(text)))
    case None =>
      FindChildSnoc(e.children, TextElement(tag, text), tag);
      e.(children := e.children + [TextElement(tag, text)])
  }

  /** Setting a text that is already there changes nothing. */
  lemma SetTextFixed(e: Element, tag: string, text: string)
    requires ChildText(e, tag) == Some(text)
    ensures SetText(e, tag, text) == e
  {
    var i := FindChild(e.children, tag).value;
    assert e.children[i].(text := Some(text)) == e.children[i];
    UpdateSame(e.children, i);
  }

  /** `update_maven_metadata` on the versions list: add the version unless
      some `<version>` already has it as text. */
  function AddVersion(versions: Element, version: string): (r: Element)
    ensures r.tag == versions.tag
    ensures Texts(r.children, "version") ==
      if Some(version) in Texts(versions.children, "version") then Texts(versions.children, "version")
      else Texts(versions.children, "version") + [Some(version)]
  {
    TextsAppend(versions.children, [TextElement("version", version)], "version");
    if Some(version) in Texts(versions.children, "version") then versions
    else versions.(children := versions.children + [TextElement("version", version)])
  }

  /** `<versions>` found or created in `versioning`, and the version added
      to it. */
  function AddToVersions(versioning: Element, version: string): (r: Element)
    ensures OnlyChanges(versioning, r, "versions")
    ensures var before := VersionTexts(versioning);
      Child(r, "versions").Some? &&
      VersionTexts(r) == if Some(version) in before then before else before + [Some(version)]
  {
    match FindChild(versioning.children, "versions")
    case Some(i) => ReplaceChild(versioning, i, AddVersion(versioning.children[i], version))
    case None =>
      var list := AddVersion(NewElement("versions"), version);
      FindChildSnoc(versioning.children, list, "versions");
      versioning.(children := versioning.children + [list])
  }

  /** Adding a version that is listed changes nothing. */
  lemma AddToVersionsFixed(versioning: Element, version: string)
    requires Child(versioning, "versions").Some? && Some(version) in VersionTexts(versioning)
    ensures AddToVersions(versioning, version) == versioning
  {
    var i := FindChild(versioning.children, "versions").value;
    UpdateSame(versioning.children, i);
  }

  /** `update_maven_metadata` on `<versioning>`: `latest` and `release`
      are set to the version, found or created in that order, then the
      version is added to `<versions>`. */
  function UpdateVersioning(versioning: Element, version: string): (r: Element)
    ensures r.tag == versioning.tag
  {
    AddToVersions(SetText(SetText(versioning, "latest", version), "release", version), version)
  }

  /** `<versioning>` found or created in the root, and updated. */
  function UpdateLedger(root: Element, version: string): (r: Element)
    ensures OnlyChanges(root, r, "versioning")
    ensures Child(r, "versioning") == Some(UpdateVersioning(VersioningOf(root), version))
  {
    match FindChild(root.children, "versioning")
    case Some(i) => ReplaceChild(root, i, UpdateVersioning(root.children[i], version))
    case None =>
      var versioning := UpdateVersioning(NewElement("versioning"), version);
      AppendChildFound(root, versioning);
      root.(children := root.children + [versioning])
  }

  /** The `<versioning>` element an update works on. */
  function VersioningOf(root: Element): Element {
    match Child(root, "versioning")
    case None => NewElement("versioning")
    case Some(v) => v
  }

  /** `latest` and `release` of an updated `<versioning>`. */
  lemma UpdateVersioningLatest(x: Element, version: string)
    ensures ChildText(UpdateVersioning(x, version), "latest") == Some(version)
    ensures ChildText(UpdateVersioning(x, version), "release") == Some(version)
  {
    var a := SetText(x, "latest", version);
    var b := SetText(a, "release", version);
    OnlyChangesKeeps(a, b, "release", "latest");
    OnlyChangesKeeps(b, AddToVersions(b, version), "versions", "latest");
    OnlyChangesKeeps(b, AddToVersions(b, version), "versions", "release");
  }

  /** `<versions>` of an updated `<versioning>`. */
  lemma UpdateVersioningVersions(x: Element, version: string)
    ensures var before := VersionTexts(x);
      Child(UpdateVersioning(x, version), "versions").Some? &&
      VersionTexts(UpdateVersioning(x, version)) == if Some(version) in before then before else before + [Some(version)]
  {
    var a := SetText(x, "latest", version);
    var b := SetText(a, "release", version);
    OnlyChangesKeeps(x, a, "latest", "versions");
    OnlyChangesKeeps(a, b, "release", "versions");
  }

  /** `latest` and `release` both name the version just recorded, whatever
      its order relative to the others. */
  lemma UpdateLedgerLatest(root: Element, version: string)
    ensures Latest(UpdateLedger(root, version)) == Some(version)
    ensures Release(UpdateLedger(root, version)) == Some(version)
  {
    UpdateVersioningLatest(VersioningOf(root), version);
  }

  /** The version is appended to `<versions>` exactly when it is not yet
      listed: a repeated publish leaves the list as it is, and existing
      entries are never removed or reordered. */
  lemma UpdateLedgerVersions(root: Element, version: string)
    ensures var before := Versions(root);
      Versions(UpdateLedger(root, version)) == if Some(version) in before then before else before + [Some(version)]
  {
    UpdateVersioningVersions(VersioningOf(root), version);
  }

  /** An updated `<versioning>` is left as it is by the same update. */
  lemma UpdateVersioningFixed(x: Element, version: string)
    ensures UpdateVersioning(UpdateVersioning(x, version), version) == UpdateVersioning(x, version)
  {
    var y := UpdateVersioning(x, version);
    UpdateVersioningLatest(x, version);
    UpdateVersioningVersions(x, version);
    SetTextFixed(y, "latest", version);
    SetTextFixed(y, "release", version);
    AddToVersionsFixed(y, version);
  }

  /** Recording a version twice is recording it once. */
  lemma UpdateLedgerIdempotent(root: Element, version: string)
    ensures UpdateLedger(UpdateLedger(root, version), version) == UpdateLedger(root, version)
  {
    UpdateVersioningFixed(VersioningOf(root), version);
    UpdateLedgerFixed(UpdateLedger(root, version), version);
  }

  lemma UpdateLedgerFixed(root: Element, version: string)
    requires Child(root, "versioning").Some?
    requires UpdateVersioning(VersioningOf(root), version) == VersioningOf(root)
    ensures UpdateLedger(root, version) == root
  {
    var i := FindChild(root.children, "versioning").value;
    UpdateSame(root.children, i);
  }

  /** Everything but `<versioning>` is left alone; in particular the
      `groupId` and `artifactId` of the ledger. */
  lemma UpdateLedgerKeeps(root: Element, version: string, tag: string)
    requires tag != "versioning"
    ensures Child(UpdateLedger(root, version), tag) == Child(root, tag)
  {
    OnlyChangesKeeps(root, UpdateLedger(root, version), "versioning", tag);
  }

  /** A fresh ledger then lists only the version being published. */
  lemma FreshLedgerVersions(groupText: string, artifactId: string, version: string)
    ensures Versions(UpdateLedger(FreshLedger(groupText, artifactId), version)) == [Some(version)]
  {
    assert "versioning"[0] != "groupId"[0];
    assert Versions(FreshLedger(groupText, artifactId)) == [];
    UpdateLedgerVersions(FreshLedger(groupText, artifactId), version);
  }

  /** The parent of the artifact's base directory is named after the
      last segment of a dotted group id. */
  lemma ParentNameDotted(repo: string, front: string, last: string, artifactId: string)
    requires !HasChar(last, '.') && !HasChar(last, '/') && !HasChar(artifactId, '/')
    ensures GroupIdAsWritten(ArtifactBase(repo, front + "." + last, artifactId)) == last
  {
    var parent := repo + "/" + GroupPath(front + "." + last);
    ParentNameOf(parent, artifactId);
    GroupPathSplit(front + "." + last, front, last);
    assert parent == (repo + "/" + GroupPath(front)) + "/" + last;
    LastNameOf(repo + "/" + GroupPath(front), last);
  }

  /** As written, a fresh ledger records only the last dot-separated
      segment of the group id. */
  lemma GroupIdAsWrittenIsLastSegment(repo: string, groupId: string, artifactId: string)
    requires !HasChar(groupId, '/') && !HasChar(artifactId, '/')
    ensures GroupIdAsWritten(ArtifactBase(repo, groupId, artifactId)) ==
      match SplitLast(groupId, '.') case None => groupId case Some((_, last)) => last
  {
    match SplitLast(groupId, '.')
    case None =>
      ReplaceCharAbsent(groupId, '.', '/');
      ParentNameOf(repo + "/" + GroupPath(groupId), artifactId);
      LastNameOf(repo, groupId);
    case Some((front, last)) =>
      assert !HasChar(last, '/') by {
        assert forall i :: 0 <= i < |last| ==> last[i] == groupId[|front| + 1 + i];
      }
      assert groupId == front + "." + last;
      ParentNameDotted(repo, front, last, artifactId);
  }

  /** The group id `com.example` is recorded as `example`. */
  lemma GroupIdAsWrittenExample()
    ensures GroupIdAsWritten(ArtifactBase("/m2", "com.example", "protos")) == "example"
  {
    assert !HasChar("com.example", '/');
    SplitLastConcat("com", '.', "example");
    assert "com" + ['.'] + "example" == "com.example";
    GroupIdAsWrittenIsLastSegment("/m2", "com.example", "protos");
  }

  /** The ledger an update starts from: the parsed file, a fresh ledger
      recording `groupText` when there is none, or nothing when the file does not parse (the
      script then raises). */
  function CurrentLedger(files: Files, path: string, groupText: string, artifactId: string): Option<Element> {
    if path !in files then Some(FreshLedger(groupText, artifactId))
    else if files[path].XmlDoc? then Some(files[path].root)
    else None
  }

  /** The writes `update_maven_metadata` makes, one file at a time. */
  lemma WriteLedgerSteps(files: Files, path: string, root: Element)
    ensures var written := files[path := XmlDoc(root)];
      written[ChecksumPath(path, Md5) := Digest(Md5, XmlDoc(root))][ChecksumPath(path, Sha1) := Digest(Sha1, XmlDoc(root))]
        == WriteWithChecksums(files, path, XmlDoc(root))
  {
  }

  /** The repository after `update_maven_metadata(dir, ...)`, a fresh
      ledger recording `groupText`: the ledger rewritten and its two
      checksum files regenerated. */
  function WithLedger(files: Files, dir: string, groupText: string, artifactId: string, version: string): Option<Files> {
    var path := LedgerPath(dir);
    match CurrentLedger(files, path, groupText, artifactId)
    case None => None
    case Some(root) => Some(WriteWithChecksums(files, path, XmlDoc(UpdateLedger(root, version))))
  }

  /** Publishing the same version twice leaves the repository's ledger
      files as one publish does. */
  lemma WithLedgerIdempotent(files: Files, dir: string, groupText: string, artifactId: string, version: string)
    requires WithLedger(files, dir, groupText, artifactId, version).Some?
    ensures var once := WithLedger(files, dir, groupText, artifactId, version).value;
      WithLedger(once, dir, groupText, artifactId, version) == Some(once)
  {
    var path := LedgerPath(dir);
    var root := CurrentLedger(files, path, groupText, artifactId).value;
    var updated := UpdateLedger(root, version);
    var once := WriteWithChecksums(files, path, XmlDoc(updated));
    assert CurrentLedger(once, path, groupText, artifactId) == Some(updated);
    UpdateLedgerIdempotent(root, version);
    WriteWithChecksumsSame(files, path, XmlDoc(updated));
  }

  /** A ledger written where there was none records the group text it
      was created with, and the artifact id. */
  lemma FreshLedgerRecorded(files: Files, dir: string, groupText: string, artifactId: string, version: string)
    requires LedgerPath(dir) !in files
    ensures var r := WithLedger(files, dir, groupText, artifactId, version);
      && r.Some? && r.value[LedgerPath(dir)].XmlDoc?
      && ChildText(r.value[LedgerPath(dir)].root, "groupId") == Some(groupText)
      && ChildText(r.value[LedgerPath(dir)].root, "artifactId") == Some(artifactId)
  {
    var created := FreshLedger(groupText, artifactId);
    assert FindChild(created.children, "groupId") == Some(0);
    assert "artifactId"[0] != "groupId"[0];
    assert FindChild(created.children, "artifactId") == Some(1);
    UpdateLedgerKeeps(created, version, "groupId");
    UpdateLedgerKeeps(created, version, "artifactId");
  }

  /** With the group id passed in full, the first publish of an artifact
      records it in full: the intended ledger. */
  lemma IntendedLedgerGroupId(files: Files, repo: string, groupId: string, artifactId: string, version: string)
    requires LedgerPath(ArtifactBase(repo, groupId, artifactId)) !in files
    ensures var dir := ArtifactBase(repo, groupId, artifactId);
      var r := WithLedger(files, dir, groupId, artifactId, version);
      r.Some? && ChildText(r.value[LedgerPath(dir)].root, "groupId") == Some(groupId)
  {
    FreshLedgerRecorded(files, ArtifactBase(repo, groupId, artifactId), groupId, artifactId, version);
  }

  /** As written, the first publish of `com.example:protos` records the
      group id `example`. */
  lemma LedgerGroupIdAsWritten(files: Files, version: string)
    requires LedgerPath(ArtifactBase("/m2", "com.example", "protos")) !in files
    ensures var dir := ArtifactBase("/m2", "com.example", "protos");
      var r := WithLedger(files, dir, GroupIdAsWritten(dir), "protos", version);
      r.Some? && ChildText(r.value[LedgerPath(dir)].root, "groupId") == Some("example")
  {
    var dir := ArtifactBase("/m2", "com.example", "protos");
    GroupIdAsWrittenExample();
    FreshLedgerRecorded(files, dir, GroupIdAsWritten(dir), "protos", version);
  }

  /** The repository after the jar copy, the POM and their checksums. */
  function WithArtifacts(files: Files, jar: FileContent, repo: string, groupId: string, artifactId: string, version: string): Files {
    var jarAt, pomAt := JarPath(repo, groupId, artifactId, version), PomPath(repo, groupId, artifactId, version);
    var written := files[jarAt := jar][pomAt := XmlDoc(GeneratePom(groupId, artifactId, version, Some(Description(artifactId))))];
    WithChecksums(WithChecksums(written, jarAt), pomAt)
  }

  /** What the artifact files hold after a publish. */
  lemma WithArtifactsContents(files: Files, jar: FileContent, repo: string, groupId: string, artifactId: string, version: string)
    ensures var r := WithArtifacts(files, jar, repo, groupId, artifactId, version);
      var jarAt, pomAt := JarPath(repo, groupId, artifactId, version), PomPath(repo, groupId, artifactId, version);
      var pom := XmlDoc(GeneratePom(groupId, artifactId, version, Some(Description(artifactId))));
      r.Keys == files.Keys + {jarAt, pomAt, ChecksumPath(jarAt, Md5), ChecksumPath(jarAt, Sha1), ChecksumPath(pomAt, Md5), ChecksumPath(pomAt, Sha1)} &&
      r[jarAt] == jar && r[pomAt] == pom &&
      r[ChecksumPath(jarAt, Md5)] == Digest(Md5, jar) && r[ChecksumPath(jarAt, Sha1)] == Digest(Sha1, jar) &&
      r[ChecksumPath(pomAt, Md5)] == Digest(Md5, pom) && r[ChecksumPath(pomAt, Sha1)] == Digest(Sha1, pom)
  {
    ArtifactPathsDistinct(repo, groupId, artifactId, version);
  }

  /** The files a publish writes lie below the version's directory. */
  lemma ArtifactFilesUnder(repo: string, groupId: string, artifactId: string, version: string, a: HashAlgorithm)
    ensures var dir := ArtifactDir(repo, groupId, artifactId, version) + "/";
      var jarAt, pomAt := JarPath(repo, groupId, artifactId, version), PomPath(repo, groupId, artifactId, version);
      StartsWith(jarAt, dir) && StartsWith(pomAt, dir) &&
      StartsWith(ChecksumPath(jarAt, a), dir) && StartsWith(ChecksumPath(pomAt, a), dir)
  {
    var dir := ArtifactDir(repo, groupId, artifactId, version) + "/";
    assert StartsWith(dir, dir);
    StartsWithExtend(dir, dir, artifactId);
    StartsWithExtend(dir + artifactId, dir, "-");
    StartsWithExtend(dir + artifactId + "-", dir, version);
    var stem := dir + artifactId + "-" + version;
    StartsWithExtend(stem, dir, ".jar");
    StartsWithExtend(stem, dir, ".pom");
    StartsWithExtend(stem + ".jar", dir, ".");
    StartsWithExtend(stem + ".pom", dir, ".");
    StartsWithExtend(stem + ".jar" + ".", dir, AlgorithmName(a));
    StartsWithExtend(stem + ".pom" + ".", dir, AlgorithmName(a));
  }

  /** A publish writes only below the version's directory. */
  lemma WithArtifactsOutside(files: Files, jar: FileContent, repo: string, groupId: string, artifactId: string,
                             version: string, p: string)
    requires p in files && !StartsWith(p, ArtifactDir(repo, groupId, artifactId, version) + "/")
    ensures var r := WithArtifacts(files, jar, repo, groupId, artifactId, version);
      p in r && r[p] == files[p]
  {
    ArtifactFilesUnder(repo, groupId, artifactId, version, Md5);
    ArtifactFilesUnder(repo, groupId, artifactId, version, Sha1);
  }

  /** Files of another version are left alone by a publish. */
  lemma WithArtifactsKeepsOtherVersions(files: Files, jar: FileContent, repo: string, groupId: string, artifactId: string,
                                        version: string, other: string, p: string)
    requires version != other && !HasChar(version, '/') && !HasChar(other, '/')
    requires p in files && StartsWith(p, ArtifactDir(repo, groupId, artifactId, other) + "/")
    ensures var r := WithArtifacts(files, jar, repo, groupId, artifactId, version);
      p in r && r[p] == files[p]
  {
    var base := ArtifactBase(repo, groupId, artifactId);
    VersionDirsDisjoint(base, version, other, p);
    assert StartsWith(p, base + "/" + other + "/");
    assert !StartsWith(p, ArtifactDir(repo, groupId, artifactId, version) + "/");
    WithArtifactsOutside(files, jar, repo, groupId, artifactId, version, p);
  }

  // ---------------------------------------------------------------------
  // The repository and the script.

  /** The command line: the jar, `--group-id`, `--artifact-id`, and the
      optional `--version`, `--repo` and `--skip-checksums`. */
  datatype Arguments = Arguments(jarPath: string, groupId: string, artifactId: string,
                                 version: Option<string>, repo: Option<string>, skipChecksums: bool)

  function VersionOrDefault(args: Arguments): string {
    if args.version.Some? then args.version.value else "1.0.0"
  }

  /** `os.path.expanduser('~/.m2/repository')` unless `--repo` is given. */
  function RepoOrDefault(args: Arguments, home: string): string {
    if args.repo.Some? then args.repo.value else home + "/.m2/repository"
  }

  class LocalRepository {
    var files: Files

    constructor (files: Files)
      ensures this.files == files
    {
      this.files := files;
    }

    /** `update_maven_metadata(dir, artifactId, version)`. A fresh ledger
        records the name of the directory above `dir` as its group id. */
    method UpdateMavenMetadata(dir: string, artifactId: string, version: string) returns (ok: bool)
      modifies this
      ensures ok <==> WithLedger(old(files), dir, GroupIdAsWritten(dir), artifactId, version).Some?
      ensures ok ==> files == WithLedger(old(files), dir, GroupIdAsWritten(dir), artifactId, version).value
      ensures !ok ==> files == old(files)
    {
      var path := LedgerPath(dir);
      var root: Element;
      if path in files {
        if !files[path].XmlDoc? {
          return false;
        }
        root := files[path].root;
      } else {
        root := FreshLedger(ParentName(dir), artifactId);
      }
      ghost var start := root;
      var at := FindChild(root.children, "versioning");
      var versioning := if at.Some? then root.children[at.value] else NewElement("versioning");
      assert versioning == VersioningOf(start);
      versioning := SetText(versioning, "latest", version);
      versioning := SetText(versioning, "release", version);
      ghost var listed := versioning;
      var listAt := FindChild(versioning.children, "versions");
      var list := if listAt.Some? then versioning.children[listAt.value] else NewElement("versions");
      if Some(version) !in Texts(list.children, "version") {
        list := list.(children := list.children + [TextElement("version", version)]);
      }
      assert list == AddVersion(if listAt.Some? then listed.children[listAt.value] else NewElement("versions"), version);
      versioning := if listAt.Some? then ReplaceChild(versioning, listAt.value, list)
                    else versioning.(children := versioning.children + [list]);
      assert versioning == AddToVersions(listed, version);
      assert versioning == UpdateVersioning(VersioningOf(start), version);
      root := if at.Some? then ReplaceChild(root, at.value, versioning)
              else root.(children := root.children + [versioning]);
      assert root == UpdateLedger(start, version);
      WriteLedgerSteps(files, path, root);
      files := files[path := XmlDoc(root)];
      files := files[ChecksumPath(path, Md5) := Digest(Md5, files[path])];
      files := files[ChecksumPath(path, Sha1) := Digest(Sha1, files[path])];
      ok := true;
    }

    /** `publish_to_local_repo`: `shutil.copy2` raises on a missing
        source or a copy onto itself, before anything is written; a
        ledger that does not parse raises after the artifacts are in. */
    method PublishToLocalRepo(jarPath: string, groupId: string, artifactId: string, version: string, repo: string)
      returns (ok: bool)
      modifies this
      ensures var jarAt := JarPath(repo, groupId, artifactId, version);
        jarPath !in old(files) || jarPath == jarAt ==> !ok && files == old(files)
      ensures var jarAt := JarPath(repo, groupId, artifactId, version);
        jarPath in old(files) && jarPath != jarAt ==>
          var written := WithArtifacts(old(files), old(files)[jarPath], repo, groupId, artifactId, version);
          var base := ArtifactBase(repo, groupId, artifactId);
          var ledger := WithLedger(written, base, GroupIdAsWritten(base), artifactId, version);
          (ok <==> ledger.Some?) && files == if ok then ledger.value else written
    {
      var dir := ArtifactDir(repo, groupId, artifactId, version);
      var jarAt := dir + "/" + artifactId + "-" + version + ".jar";
      if jarPath !in files || jarPath == jarAt {
        return false;
      }
      files := files[jarAt := files[jarPath]];
      var pomAt := dir + "/" + artifactId + "-" + version + ".pom";
      files := files[pomAt := XmlDoc(GeneratePom(groupId, artifactId, version, Some(Description(artifactId))))];
      files := files[ChecksumPath(jarAt, Md5) := Digest(Md5, files[jarAt])];
      files := files[ChecksumPath(jarAt, Sha1) := Digest(Sha1, files[jarAt])];
      files := files[ChecksumPath(pomAt, Md5) := Digest(Md5, files[pomAt])];
      files := files[ChecksumPath(pomAt, Sha1) := Digest(Sha1, files[pomAt])];
      ok := UpdateMavenMetadata(ArtifactBase(repo, groupId, artifactId), artifactId, version);
    }

    /** `main`: a missing jar exits 1 before anything is written, any
        exception while publishing exits 1, and `--skip-checksums` changes
        nothing. */
    method PublishCommand(args: Arguments, home: string) returns (status: int)
      modifies this
      ensures var repo, version := RepoOrDefault(args, home), VersionOrDefault(args);
        var jarAt := JarPath(repo, args.groupId, args.artifactId, version);
        args.jarPath !in old(files) || args.jarPath == jarAt ==> status == 1 && files == old(files)
      ensures var repo, version := RepoOrDefault(args, home), VersionOrDefault(args);
        var jarAt := JarPath(repo, args.groupId, args.artifactId, version);
        args.jarPath in old(files) && args.jarPath != jarAt ==>
          var written := WithArtifacts(old(files), old(files)[args.jarPath], repo, args.groupId, args.artifactId, version);
          var base := ArtifactBase(repo, args.groupId, args.artifactId);
          var ledger := WithLedger(written, base, GroupIdAsWritten(base), args.artifactId, version);
          (status == 0 <==> ledger.Some?) && (status == 0 || status == 1) &&
          files == if ledger.Some? then ledger.value else written
    {
      if args.jarPath !in files {
        return 1;
      }
      var ok := PublishToLocalRepo(args.jarPath, args.groupId, args.artifactId, VersionOrDefault(args), RepoOrDefault(args, home));
      status := if ok then 0 else 1;
    }
  }
}
