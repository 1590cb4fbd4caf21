/** The two JAR bundlers: the fat JAR is the dependency JARs extracted
    into one tree without their signature files, a fresh manifest, and
    the proto sources copied to the root. The generated variant then runs
    the Jandex indexer over the finished JAR when one is given. The
    dependency JARs on disk are a map from path to the names of their
    entries; the staging tree is a map from entry name to what it holds. */
module JarBundler {
  import opened Text
  import opened BazelPaths
  import opened VersionPlaceholder

  /** What an entry of the fat JAR holds. */
  datatype Entry =
    | Extracted(jar: string, name: string)
    | CopiedProto(src: string)
    | ManifestText(text: string)
    | JandexIndex

  // ---------------------------------------------------------------------
  // The manifest.

  const ManifestPath := "META-INF/MANIFEST.MF"
  const JandexPath := "META-INF/jandex.idx"

  /** The five header lines of `create_manifest`, in order. */
  function ManifestLines(groupId: string, artifactId: string, version: string): seq<string> {
    ["Manifest-Version: 1.0",
     "Bundle-SymbolicName: " + groupId + ":" + artifactId,
     "Bundle-Version: " + version,
     "Bundle-Name: " + artifactId + " Proto Bundle",
     "Built-By: Proto Lake"]
  }

  /** `create_manifest`: the header lines, each ended by a newline. */
  function Manifest(groupId: string, artifactId: string, version: string): string {
    Unlines(ManifestLines(groupId, artifactId, version))
  }

  lemma NoNewlineConcat(a: string, b: string)
    requires !HasChar(a, '\n') && !HasChar(b, '\n')
    ensures !HasChar(a + b, '\n')
  {
    forall i | 0 <= i < |a + b| ensures (a + b)[i] != '\n' {
      if i < |a| {
        assert (a + b)[i] == a[i];
      } else {
        assert (a + b)[i] == b[i - |a|];
      }
    }
  }

  lemma NoNewlineLiteral(lit: string)
    requires forall i :: 0 <= i < |lit| ==> lit[i] != '\n'
    ensures !HasChar(lit, '\n')
  {
  }

  lemma ManifestLinesFree(groupId: string, artifactId: string, version: string)
    requires !HasChar(groupId, '\n') && !HasChar(artifactId, '\n') && !HasChar(version, '\n')
    ensures forall k :: 0 <= k < 5 ==> !HasChar(ManifestLines(groupId, artifactId, version)[k], '\n')
  {
    var lines := ManifestLines(groupId, artifactId, version);
    NoNewlineLiteral("Manifest-Version: 1.0");
    NoNewlineLiteral("Bundle-SymbolicName: ");
    NoNewlineLiteral(":");
    NoNewlineLiteral("Bundle-Version: ");
    NoNewlineLiteral("Bundle-Name: ");
    NoNewlineLiteral(" Proto Bundle");
    NoNewlineLiteral("Built-By: Proto Lake");
    NoNewlineConcat("Bundle-SymbolicName: ", groupId);
    NoNewlineConcat("Bundle-SymbolicName: " + groupId, ":");
    NoNewlineConcat("Bundle-SymbolicName: " + groupId + ":", artifactId);
    NoNewlineConcat("Bundle-Version: ", version);
    NoNewlineConcat("Bundle-Name: ", artifactId);
    NoNewlineConcat("Bundle-Name: " + artifactId, " Proto Bundle");
  }

  /** With coordinates and version free of line breaks, the manifest is
      exactly the five header lines, each ended by a newline: splitting it
      at newlines gives them back followed by nothing. */
  lemma ManifestIsFiveLines(groupId: string, artifactId: string, version: string)
    requires !HasChar(groupId, '\n') && !HasChar(artifactId, '\n') && !HasChar(version, '\n')
    ensures Split(Manifest(groupId, artifactId, version), "\n") ==
      ManifestLines(groupId, artifactId, version) + [""]
  {
    ManifestLinesFree(groupId, artifactId, version);
    SplitUnlines(ManifestLines(groupId, artifactId, version));
  }

  // ---------------------------------------------------------------------
  // Extraction of the dependency JARs.

  const MetaInf := "META-INF/"

  /** JAR signature files, which would no longer match the merged JAR. */
  predicate IsSignatureFile(name: string) {
    StartsWith(name, MetaInf) &&
    (EndsWith(name, ".SF") || EndsWith(name, ".DSA") || EndsWith(name, ".RSA"))
  }

  /** The staging tree after extracting the entries `names` of `jar`:
      every entry but a signature file, a later entry overwriting an
      earlier one of the same name. A directory entry stands for the
      directory `zf.extract` makes for it. */
  function ExtractEntries(files: map<string, Entry>, jar: string, names: seq<string>): (r: map<string, Entry>)
    ensures forall p :: p in r <==> p in files || (p in names && !IsSignatureFile(p))
    ensures forall p :: p in names && !IsSignatureFile(p) ==> r[p] == Extracted(jar, p)
    ensures forall p :: p in files && (p !in names || IsSignatureFile(p)) ==> r[p] == files[p]
  {
    if names == [] then files else
    var name := names[|names| - 1];
    var before := ExtractEntries(files, jar, names[..|names| - 1]);
    assert forall p :: p in names <==> p in names[..|names| - 1] || p == name;
    if IsSignatureFile(name) then before else before[name := Extracted(jar, name)]
  }

  /** The staging tree after extracting each JAR that exists, in order. */
  function ExtractJarList(files: map<string, Entry>, jars: seq<string>, listings: map<string, seq<string>>)
    : map<string, Entry>
  {
    if jars == [] then files else
    var jar := jars[|jars| - 1];
    var before := ExtractJarList(files, jars[..|jars| - 1], listings);
    if jar in listings then ExtractEntries(before, jar, listings[jar]) else before
  }

  /** An entry extracted from a JAR the script was given. */
  predicate ExtractedFrom(e: Entry, p: string, jars: seq<string>, listings: map<string, seq<string>>) {
    e.Extracted? && e.name == p && e.jar in jars && e.jar in listings && p in listings[e.jar]
  }

  /** Extraction adds exactly the non-signature entries of the existing
      JARs, each coming from a given JAR that lists it; JARs that do not
      exist contribute nothing, and no signature file is ever added. */
  lemma {:induction false} ExtractJarListSpec(files: map<string, Entry>, jars: seq<string>,
                                              listings: map<string, seq<string>>)
    ensures var r := ExtractJarList(files, jars, listings);
      forall p :: p in r && p !in files ==> !IsSignatureFile(p)
    ensures var r := ExtractJarList(files, jars, listings);
      forall p :: p in r && p !in files ==> ExtractedFrom(r[p], p, jars, listings)
    ensures var r := ExtractJarList(files, jars, listings);
      forall i, p :: 0 <= i < |jars| && jars[i] in listings && p in listings[jars[i]] && !IsSignatureFile(p) ==> p in r
    ensures var r := ExtractJarList(files, jars, listings);
      forall p :: p in files ==> p in r && (r[p] == files[p] || ExtractedFrom(r[p], p, jars, listings))
  {
    if jars != [] {
      var front := jars[..|jars| - 1];
      ExtractJarListSpec(files, front, listings);
      var before := ExtractJarList(files, front, listings);
      var r := ExtractJarList(files, jars, listings);
      forall i, p | 0 <= i < |jars| && jars[i] in listings && p in listings[jars[i]] && !IsSignatureFile(p)
        ensures p in r
      {
        if i < |jars| - 1 {
          assert jars[i] == front[i];
        }
      }
      forall p | p in before && ExtractedFrom(before[p], p, front, listings)
        ensures ExtractedFrom(before[p], p, jars, listings)
      {
        assert before[p].jar in jars by {
          var k :| 0 <= k < |front| && front[k] == before[p].jar;
          assert jars[k] == front[k];
        }
      }
      assert jars[|jars| - 1] in jars;
    }
  }

  // ---------------------------------------------------------------------
  // Proto sources.

  /** A proto entry of the JAR bundlers: the explicit form, or the source
      with the two-prefix destination rule. */
  function ParseJarSpec(spec: string): (r: ProtoSpec)
    ensures HasChar(spec, '=') ==> SplitExplicit(spec) == Some(r)
    ensures !HasChar(spec, '=') ==> r == ProtoSpec(spec, JarStrip(spec))
  {
    match SplitExplicit(spec)
    case Some(p) => p
    case None => ProtoSpec(spec, JarStrip(spec))
  }

  /** The staging tree after the proto loop: each entry whose source
      exists is copied to its destination, the others are skipped without
      a word. */
  function CopyProtoList(files: map<string, Entry>, specs: seq<string>, existing: set<string>)
    : map<string, Entry>
  {
    if specs == [] then files else
    var p := ParseJarSpec(specs[|specs| - 1]);
    var before := CopyProtoList(files, specs[..|specs| - 1], existing);
    if p.src in existing then before[p.dest := CopiedProto(p.src)] else before
  }

  /** A destination the proto loop writes: that of the last entry when
      its source exists, or one an earlier entry writes. */
  predicate WrittenBy(specs: seq<string>, existing: set<string>, d: string) {
    if specs == [] then false
    else
      var last := ParseJarSpec(specs[|specs| - 1]);
      (last.src in existing && last.dest == d) || WrittenBy(specs[..|specs| - 1], existing, d)
  }

  /** Every entry whose source exists has its destination written. */
  lemma {:induction false} WrittenByEntry(specs: seq<string>, existing: set<string>, i: nat)
    requires i < |specs| && ParseJarSpec(specs[i]).src in existing
    ensures WrittenBy(specs, existing, ParseJarSpec(specs[i]).dest)
  {
    if i < |specs| - 1 {
      var front := specs[..|specs| - 1];
      assert front[i] == specs[i];
      WrittenByEntry(front, existing, i);
    }
  }

  /** Every written destination is that of an entry whose source exists. */
  lemma {:induction false} WrittenByOnlyEntries(specs: seq<string>, existing: set<string>, d: string) returns (i: nat)
    requires WrittenBy(specs, existing, d)
    ensures i < |specs| && ParseJarSpec(specs[i]).src in existing && ParseJarSpec(specs[i]).dest == d
  {
    var n := |specs| - 1;
    var last := ParseJarSpec(specs[n]);
    if last.src in existing && last.dest == d {
      i := n;
    } else {
      var front := specs[..n];
      assert WrittenBy(front, existing, d);
      i := WrittenByOnlyEntries(front, existing, d);
      assert specs[i] == front[i];
    }
  }

  /** The proto loop adds exactly the destinations of the entries whose
      source exists, and each holds a copy of an existing source. */
  lemma {:induction false} CopyProtoListKeys(files: map<string, Entry>, specs: seq<string>, existing: set<string>)
    ensures var r := CopyProtoList(files, specs, existing);
      forall d :: d in r <==> (d in files || WrittenBy(specs, existing, d))
    ensures var r := CopyProtoList(files, specs, existing);
      forall d :: WrittenBy(specs, existing, d) ==> r[d].CopiedProto? && r[d].src in existing
  {
    if specs != [] {
      CopyProtoListKeys(files, specs[..|specs| - 1], existing);
    }
  }

  /** A destination no entry names keeps what it held. */
  lemma {:induction false} CopyProtoListKeeps(files: map<string, Entry>, specs: seq<string>, existing: set<string>, d: string)
    requires d in files && forall i :: 0 <= i < |specs| ==> ParseJarSpec(specs[i]).dest != d
    ensures d in CopyProtoList(files, specs, existing) && CopyProtoList(files, specs, existing)[d] == files[d]
  {
    if specs != [] {
      CopyProtoListKeeps(files, specs[..|specs| - 1], existing, d);
      assert ParseJarSpec(specs[|specs| - 1]).dest != d;
    }
  }

  // ---------------------------------------------------------------------
  // The staging tree and the loops of the scripts.

  class FatJar {
    var files: map<string, Entry>

    constructor ()
      ensures files == map[]
    {
      files := map[];
    }

    /** `zf.extract` over the entries of one JAR, skipping signature files. */
    method ExtractJar(jar: string, names: seq<string>)
      modifies this
      ensures files == ExtractEntries(old(files), jar, names)
    {
      var i := 0;
      while i < |names|
        invariant 0 <= i <= |names|
        invariant files == ExtractEntries(old(files), jar, names[..i])
      {
        var name := names[i];
        assert names[..i + 1][..i] == names[..i];
        if !(StartsWith(name, MetaInf) &&
             (EndsWith(name, ".SF") || EndsWith(name, ".DSA") || EndsWith(name, ".RSA"))) {
          files := files[name := Extracted(jar, name)];
        }
        i := i + 1;
      }
      assert names[..|names|] == names;
    }

    /** The loop over `--java-jars`: a JAR that does not exist is skipped. */
    method ExtractJars(jars: seq<string>, listings: map<string, seq<string>>)
      modifies this
      ensures files == ExtractJarList(old(files), jars, listings)
    {
      var i := 0;
      while i < |jars|
        invariant 0 <= i <= |jars|
        invariant files == ExtractJarList(old(files), jars[..i], listings)
      {
        var jar := jars[i];
        assert jars[..i + 1][..i] == jars[..i];
        if jar in listings {
          ExtractJar(jar, listings[jar]);
        }
        i := i + 1;
      }
      assert jars[..|jars|] == jars;
    }

    /** The loop over `--proto-sources`. */
    method CopyProtos(specs: seq<string>, existing: set<string>)
      modifies this
      ensures files == CopyProtoList(old(files), specs, existing)
    {
      var i := 0;
      while i < |specs|
        invariant 0 <= i <= |specs|
        invariant files == CopyProtoList(old(files), specs[..i], existing)
      {
        var spec := specs[i];
        assert specs[..i + 1][..i] == specs[..i];
        var src: string, dest: string;
        if HasChar(spec, '=') {
          var explicit := SplitExplicit(spec);
          src, dest := explicit.value.src, explicit.value.dest;
        } else {
          src := spec;
          dest := DeriveJarDest(spec);
        }
        if src in existing {
          files := files[dest := CopiedProto(src)];
        }
        i := i + 1;
      }
      assert specs[..|specs|] == specs;
    }
  }

  /** How a JAR bundler run ends. */
  datatype Outcome = Built | IndexFailed(exitCode: int)

  /** A name `zf.extract` turns into a directory rather than a file. */
  predicate IsDirectoryEntry(name: string) {
    EndsWith(name, "/")
  }

  /** The archive loop: `os.walk` over the staging tree yields its files
      and the loop writes each under its relative path; the directories
      made for directory entries are walked but never written. */
  function JarContents(files: map<string, Entry>): (r: map<string, Entry>)
    ensures forall p :: p in r ==> p in files && !IsDirectoryEntry(p) && r[p] == files[p]
    ensures forall p :: p in files && !IsDirectoryEntry(p) ==> p in r
  {
    map p | p in files && !IsDirectoryEntry(p) :: files[p]
  }

  /** The staging steps of both scripts in order: extraction, the manifest
      (replacing any extracted one), then the protos; `jar` is what the
      archive loop writes from that tree. */
  method StageJar(jars: seq<string>, listings: map<string, seq<string>>, specs: seq<string>,
                  existing: set<string>, groupId: string, artifactId: string, version: string,
                  env: map<string, string>)
    returns (staging: FatJar, jar: map<string, Entry>)
    ensures fresh(staging)
    ensures staging.files == CopyProtoList(
      ExtractJarList(map[], jars, listings)[ManifestPath := ManifestText(Manifest(groupId, artifactId, ResolveVersion(version, env)))],
      specs, existing)
    ensures jar == JarContents(staging.files)
    ensures forall p :: p in jar ==> !IsDirectoryEntry(p)
  {
    var resolved := ResolveVersion(version, env);
    staging := new FatJar();
    staging.ExtractJars(jars, listings);
    staging.files := staging.files[ManifestPath := ManifestText(Manifest(groupId, artifactId, resolved))];
    staging.CopyProtos(specs, existing);
    jar := JarContents(staging.files);
  }

  /** The JAR holds the fresh manifest unless a proto entry is copied
      over its path. */
  lemma JarHoldsManifest(jars: seq<string>, listings: map<string, seq<string>>, specs: seq<string>,
                         existing: set<string>, manifest: string)
    requires forall i :: 0 <= i < |specs| ==> ParseJarSpec(specs[i]).dest != ManifestPath
    ensures var jar := JarContents(CopyProtoList(
      ExtractJarList(map[], jars, listings)[ManifestPath := ManifestText(manifest)], specs, existing));
      ManifestPath in jar && jar[ManifestPath] == ManifestText(manifest)
  {
    var withManifest := ExtractJarList(map[], jars, listings)[ManifestPath := ManifestText(manifest)];
    CopyProtoListKeeps(withManifest, specs, existing, ManifestPath);
    assert !IsDirectoryEntry(ManifestPath) by {
      assert ManifestPath[|ManifestPath| - 1] == 'F';
    }
  }

  /** The run of the generated script after the JAR is written: with an
      indexer given (a non-empty path, as `if args.jandex_jar` reads it),
      its exit status decides the outcome and success adds the index to
      the JAR; without one the JAR is left as it is. The non-generated
      script is this with no indexer. Either way a JAR of files only
      stays one. */
  function Index(contents: map<string, Entry>, jandexJar: Option<string>, jandexExit: int)
    : (r: (map<string, Entry>, Outcome))
    ensures jandexJar.None? || jandexJar == Some("") ==> r == (contents, Built)
    ensures jandexJar.Some? && jandexJar.value != "" && jandexExit != 0 ==> r.1 == IndexFailed(jandexExit)
    ensures jandexJar.Some? && jandexJar.value != "" && jandexExit == 0 ==>
      r == (contents[JandexPath := JandexIndex], Built)
    ensures (forall p :: p in contents ==> !IsDirectoryEntry(p)) ==> forall p :: p in r.0 ==> !IsDirectoryEntry(p)
  {
    assert !IsDirectoryEntry(JandexPath) by {
      assert JandexPath[|JandexPath| - 1] == 'x';
    }
    if jandexJar.None? || jandexJar.value == "" then (contents, Built)
    else if jandexExit != 0 then (contents, IndexFailed(jandexExit))
    else (contents[JandexPath := JandexIndex], Built)
  }

  /** Every entry of the fat JAR taken from a dependency is a
      non-signature entry listed by one of the given JARs. */
  lemma ExtractedEntriesAreNotSignatures(jars: seq<string>, listings: map<string, seq<string>>,
                                         specs: seq<string>, existing: set<string>, manifest: string, p: string)
    requires var staged := CopyProtoList(ExtractJarList(map[], jars, listings)[ManifestPath := ManifestText(manifest)], specs, existing);
      p in staged && staged[p].Extracted?
    ensures var staged := CopyProtoList(ExtractJarList(map[], jars, listings)[ManifestPath := ManifestText(manifest)], specs, existing);
      !IsSignatureFile(p) && ExtractedFrom(staged[p], p, jars, listings)
  {
    var extracted := ExtractJarList(map[], jars, listings);
    var withManifest := extracted[ManifestPath := ManifestText(manifest)];
    ExtractJarListSpec(map[], jars, listings);
    CopyProtoExtractedKept(withManifest, specs, existing, p);
  }

  /** An extracted entry in the final tree was already there before the proto loop. */
  lemma {:induction false} CopyProtoExtractedKept(files: map<string, Entry>, specs: seq<string>,
                                                  existing: set<string>, p: string)
    requires p in CopyProtoList(files, specs, existing) && CopyProtoList(files, specs, existing)[p].Extracted?
    ensures p in files && files[p] == CopyProtoList(files, specs, existing)[p]
  {
    if specs != [] {
      CopyProtoExtractedKept(files, specs[..|specs| - 1], existing, p);
    }
  }
}
