/** The files the publishers write, keyed by path. Contents are kept
    abstract: an opaque blob (a jar or a wheel as it was copied), an XML
    document built with ElementTree, a text, or the digest of some other
    content, which is what a checksum side file holds. */
module RepoFiles {
  import opened Text
  import opened XmlTree

  datatype HashAlgorithm = Md5 | Sha1

  function AlgorithmName(a: HashAlgorithm): string {
    match a
    case Md5 => "md5"
    case Sha1 => "sha1"
  }

  datatype FileContent =
    | Blob(name: string)
    | XmlDoc(root: Element)
    | TextFile(text: string)
    | Digest(algorithm: HashAlgorithm, content: FileContent)

  type Files = map<string, FileContent>

  /** Where the checksum of `path` goes: `<path>.md5` or `<path>.sha1`. */
  function ChecksumPath(path: string, a: HashAlgorithm): string {
    path + "." + AlgorithmName(a)
  }

  /** Two checksum side files coincide only for the same file and the
      same algorithm, and none is the file itself. */
  lemma ChecksumPathInjective(p: string, a: HashAlgorithm, q: string, b: HashAlgorithm)
    ensures ChecksumPath(p, a) == ChecksumPath(q, b) <==> p == q && a == b
    ensures ChecksumPath(p, a) != p
  {
    var x, y := ChecksumPath(p, a), ChecksumPath(q, b);
    if x == y {
      assert x[|x| - 1] == y[|y| - 1];
      assert a == b;
      assert p == x[..|p|] && q == y[..|q|];
    }
  }

  /** Both checksum side files of `path`, each the digest of what is at
      `path` when they are written. */
  function WithChecksums(files: Files, path: string): (r: Files)
    requires path in files
    ensures r.Keys == files.Keys + {ChecksumPath(path, Md5), ChecksumPath(path, Sha1)}
    ensures r[ChecksumPath(path, Md5)] == Digest(Md5, files[path])
    ensures r[ChecksumPath(path, Sha1)] == Digest(Sha1, files[path])
    ensures forall p :: p in files && p != ChecksumPath(path, Md5) && p != ChecksumPath(path, Sha1) ==> r[p] == files[p]
  {
    ChecksumPathInjective(path, Md5, path, Sha1);
    files[ChecksumPath(path, Md5) := Digest(Md5, files[path])][ChecksumPath(path, Sha1) := Digest(Sha1, files[path])]
  }

  /** Writing `content` at `path` and then its two checksum side files. */
  function WriteWithChecksums(files: Files, path: string, content: FileContent): (r: Files)
    ensures path in r && r[path] == content
    ensures r.Keys == files.Keys + {path, ChecksumPath(path, Md5), ChecksumPath(path, Sha1)}
  {
    ChecksumPathInjective(path, Md5, path, Md5);
    ChecksumPathInjective(path, Sha1, path, Sha1);
    WithChecksums(files[path := content], path)
  }

  /** A second write to the same path leaves what writing only the second
      content would have left: nothing of the first survives. */
  lemma WriteWithChecksumsAgain(files: Files, path: string, first: FileContent, second: FileContent)
    ensures WriteWithChecksums(WriteWithChecksums(files, path, first), path, second) ==
      WriteWithChecksums(files, path, second)
  {
    var a := WriteWithChecksums(WriteWithChecksums(files, path, first), path, second);
    var b := WriteWithChecksums(files, path, second);
    assert a.Keys == b.Keys;
    assert forall p :: p in a ==> a[p] == b[p];
  }

  /** Writing what is already there, checksums included, changes nothing. */
  lemma WriteWithChecksumsSame(files: Files, path: string, content: FileContent)
    ensures var once := WriteWithChecksums(files, path, content);
      WriteWithChecksums(once, path, content) == once
  {
    WriteWithChecksumsAgain(files, path, content, content);
  }
}
