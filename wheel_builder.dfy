/** The wheel builder: the `setup.py` template, the `src=dest` proto
    arguments, and the staging tree it fills before `pip wheel` runs.
    Files on disk are a set of existing paths given as a parameter; the
    staging directory is a map from relative paths (lists of segments) to
    what each file holds. */
module WheelBuilder {
  import opened Text
  import opened BazelPaths

  /** What a staged file holds. */
  datatype Content = Empty | CopyOf(src: string) | Generated(text: string)

  const InitPy := "__init__.py"

  /** `__init__.py` inside the directory `dir`. */
  function InitFile(dir: RelPath): RelPath {
    dir + [InitPy]
  }

  /** Every `__init__.py` the parent walk of the script touches for a file
      staged at `dest`: one per directory strictly between the staging
      root and the file. */
  function InitFilesFor(dest: RelPath): set<RelPath> {
    set k | 1 <= k < |dest| :: InitFile(dest[..k])
  }

  // ---------------------------------------------------------------------
  // Templates.

  const SetupHead :=
    "\n" +
    "from setuptools import setup, find_packages\n" +
    "\n" +
    "setup(\n" +
    "    name=\""
  const SetupAfterName :=
    "\",\n" +
    "    version=\""
  const SetupAfterVersion :=
    "\",\n" +
    "    packages=find_packages(),\n" +
    "    include_package_data=True,\n" +
    "    package_data={\"\": [\"*.proto\", \"*.pyi\"]},\n" +
    "    install_requires=[\n" +
    "        \"protobuf>=3.20.0\",\n" +
    "        \"grpcio>=1.50.0\",\n" +
    "    ],\n" +
    "    python_requires=\">=3.7\",\n" +
    "    description=\"Proto Bundle for "
  const SetupTail :=
    "\",\n" +
    "    author=\"Proto Lake\",\n" +
    "    classifiers=[\n" +
    "        \"Programming Language :: Python :: 3\",\n" +
    "        \"Programming Language :: Python :: 3.7\",\n" +
    "        \"Programming Language :: Python :: 3.8\",\n" +
    "        \"Programming Language :: Python :: 3.9\",\n" +
    "        \"Programming Language :: Python :: 3.10\",\n" +
    "        \"Programming Language :: Python :: 3.11\",\n" +
    "    ],\n" +
    ")\n"

  /** `create_manifest_in`. */
  const ManifestIn :=
    "\n" +
    "# Include all proto files\n" +
    "recursive-include * *.proto\n" +
    "\n" +
    "# Include all generated Python files\n" +
    "recursive-include * *.py *.pyi\n" +
    "\n" +
    "# Exclude build artifacts\n" +
    "global-exclude __pycache__\n" +
    "global-exclude *.pyc\n" +
    "global-exclude *.pyo\n"

  /** `create_setup_py`: the package name goes into `name=` and into the
      description, the version into `version=`. */
  function SetupPy(packageName: string, version: string): string {
    SetupHead + packageName + (SetupAfterName + version + AfterVersion(packageName))
  }

  /** The template from the quote closing `version=` to its end. */
  function AfterVersion(packageName: string): string {
    SetupAfterVersion + packageName + SetupTail
  }

  /** The text from `start` up to the next double quote, if any. */
  function QuotedField(text: string, start: nat): Option<string> {
    if start <= |text| then
      match SplitFirst(text[start..], "\"")
      case Some((field, _)) => Some(field)
      case None => None
    else None
  }

  /** A field free of quotes and followed by a quote is read back whole. */
  lemma QuotedFieldAt(pre: string, field: string, post: string)
    requires !HasChar(field, '"') && |post| > 0 && post[0] == '"'
    ensures QuotedField(pre + field + post, |pre|) == Some(field)
  {
    var text := pre + field + post;
    assert text[|pre|..] == field + "\"" + post[1..];
    SplitFirstAtChar(field, '"', post[1..]);
  }

  /** The shape of the `setup.py` template: a quoted name, then a quoted
      version. */
  lemma TemplateFields(head: string, name: string, afterName: string, version: string, rest: string)
    requires !HasChar(name, '"') && !HasChar(version, '"')
    requires |afterName| > 0 && afterName[0] == '"' && |rest| > 0 && rest[0] == '"'
    ensures QuotedField(head + name + (afterName + version + rest), |head|) == Some(name)
    ensures QuotedField(head + name + (afterName + version + rest), |head| + |name| + |afterName|) == Some(version)
  {
    var text := head + name + (afterName + version + rest);
    QuotedFieldIn(text, head, name, afterName + version + rest);
    Regroup(head + name, afterName, version, rest);
    QuotedFieldIn(text, head + name + afterName, version, rest);
  }

  lemma QuotedFieldIn(text: string, pre: string, field: string, post: string)
    requires text == pre + field + post
    requires !HasChar(field, '"') && |post| > 0 && post[0] == '"'
    ensures QuotedField(text, |pre|) == Some(field)
  {
    QuotedFieldAt(pre, field, post);
  }

  lemma Regroup(a: string, b: string, c: string, d: string)
    ensures a + (b + c + d) == (a + b) + c + d
  {
  }

  /** The `name=` and `version=` fields of `setup.py` are read back as
      given, as long as neither holds a quote. */
  lemma SetupPyFieldsRecoverable(packageName: string, version: string)
    requires !HasChar(packageName, '"') && !HasChar(version, '"')
    ensures QuotedField(SetupPy(packageName, version), |SetupHead|) == Some(packageName)
    ensures QuotedField(SetupPy(packageName, version),
                        |SetupHead| + |packageName| + |SetupAfterName|) == Some(version)
  {
    assert SetupAfterName[0] == '"';
    assert AfterVersion(packageName)[0] == '"' by {
      assert SetupAfterVersion[0] == '"';
    }
    TemplateFields(SetupHead, packageName, SetupAfterName, version, AfterVersion(packageName));
  }

  // ---------------------------------------------------------------------
  // Proto arguments.

  /** A proto entry of the wheel builder: the explicit form, or the
      source with its normalised path as destination. */
  function ParseProtoSpec(spec: string): (r: ProtoSpec)
    ensures HasChar(spec, '=') ==> SplitExplicit(spec) == Some(r)
    ensures !HasChar(spec, '=') ==> r == ProtoSpec(spec, WheelStrip(spec))
  {
    match SplitExplicit(spec)
    case Some(p) => p
    case None => ProtoSpec(spec, WheelStrip(spec))
  }

  /** The number of entries whose source exists: the script's `proto_count`. */
  function CountCopied(specs: seq<string>, existing: set<string>): nat {
    if specs == [] then 0 else
    var last := if ParseProtoSpec(specs[|specs| - 1]).src in existing then 1 else 0;
    CountCopied(specs[..|specs| - 1], existing) + last
  }

  /** Staged paths of the proto entries whose source exists. */
  function ProtoKeys(specs: seq<string>, existing: set<string>): set<RelPath> {
    if specs == [] then {} else
    var p := ParseProtoSpec(specs[|specs| - 1]);
    var last := if p.src in existing then {Segments(p.dest)} else {};
    ProtoKeys(specs[..|specs| - 1], existing) + last
  }

  /** Staged paths of the Python files that exist, with their `__init__.py` files. */
  function PyKeys(pyFiles: seq<string>, existing: set<string>): set<RelPath> {
    if pyFiles == [] then {} else
    var f := pyFiles[|pyFiles| - 1];
    var dest := Segments(WheelStrip(f));
    var last := if f in existing then {dest} + InitFilesFor(dest) else {};
    PyKeys(pyFiles[..|pyFiles| - 1], existing) + last
  }

  /** The source whose copy ends up at `p` after the Python-file loop:
      the last existing file staged there, later copies overwriting
      earlier ones. */
  function LastPyCopy(pyFiles: seq<string>, existing: set<string>, p: RelPath): Option<string> {
    if pyFiles == [] then None else
    var f := pyFiles[|pyFiles| - 1];
    if f in existing && Segments(WheelStrip(f)) == p then Some(f)
    else LastPyCopy(pyFiles[..|pyFiles| - 1], existing, p)
  }

  /** The source whose copy ends up at `p` after the proto loop. */
  function LastProtoCopy(specs: seq<string>, existing: set<string>, p: RelPath): Option<string> {
    if specs == [] then None else
    var spec := ParseProtoSpec(specs[|specs| - 1]);
    if spec.src in existing && Segments(spec.dest) == p then Some(spec.src)
    else LastProtoCopy(specs[..|specs| - 1], existing, p)
  }

  /** Exactly the paths with a last proto copy are the proto loop's keys. */
  lemma {:induction false} LastProtoCopyKeys(specs: seq<string>, existing: set<string>, p: RelPath)
    ensures LastProtoCopy(specs, existing, p).Some? <==> p in ProtoKeys(specs, existing)
  {
    if specs != [] {
      LastProtoCopyKeys(specs[..|specs| - 1], existing, p);
    }
  }

  lemma CountStep(specs: seq<string>, i: int, existing: set<string>)
    requires 0 <= i < |specs|
    ensures CountCopied(specs[..i + 1], existing) ==
      CountCopied(specs[..i], existing) + (if ParseProtoSpec(specs[i]).src in existing then 1 else 0)
  {
    assert specs[..i + 1][..i] == specs[..i];
  }

  lemma PyStep(pyFiles: seq<string>, i: int, existing: set<string>)
    requires 0 <= i < |pyFiles|
    ensures var f := pyFiles[i];
      var dest := Segments(WheelStrip(f));
      PyKeys(pyFiles[..i + 1], existing) ==
        PyKeys(pyFiles[..i], existing) + (if f in existing then {dest} + InitFilesFor(dest) else {})
  {
    assert pyFiles[..i + 1][..i] == pyFiles[..i];
  }

  lemma LastPyStep(pyFiles: seq<string>, i: int, existing: set<string>, q: RelPath)
    requires 0 <= i < |pyFiles|
    ensures var f := pyFiles[i];
      LastPyCopy(pyFiles[..i + 1], existing, q) ==
        if f in existing && Segments(WheelStrip(f)) == q then Some(f) else LastPyCopy(pyFiles[..i], existing, q)
  {
    assert pyFiles[..i + 1][..i] == pyFiles[..i];
  }

  /** What the staging directory holds after the Python-file loop has
      handled `pyFiles`, starting from `start`: the keys it added, each
      last copy at its destination, the files it did not copy over kept,
      and every other new file an empty `__init__.py`. */
  ghost predicate PyStaged(files: map<RelPath, Content>, start: map<RelPath, Content>,
                           pyFiles: seq<string>, existing: set<string>)
  {
    files.Keys == start.Keys + PyKeys(pyFiles, existing) &&
    (forall p :: LastPyCopy(pyFiles, existing, p).Some? ==>
       p in files && files[p] == CopyOf(LastPyCopy(pyFiles, existing, p).value)) &&
    (forall p :: p in start && LastPyCopy(pyFiles, existing, p).None? ==>
       p in files && files[p] == start[p]) &&
    (forall p :: p in files && p !in start && LastPyCopy(pyFiles, existing, p).None? ==>
       files[p] == Empty)
  }

  /** One turn of the Python-file loop keeps `PyStaged`. */
  lemma PyStagedStep(files: map<RelPath, Content>, next: map<RelPath, Content>, start: map<RelPath, Content>,
                     pyFiles: seq<string>, i: int, existing: set<string>)
    requires 0 <= i < |pyFiles|
    requires PyStaged(files, start, pyFiles[..i], existing)
    requires var f := pyFiles[i];
      var dest := Segments(WheelStrip(f));
      if f in existing then
        next.Keys == files.Keys + {dest} + InitFilesFor(dest) && dest in next && next[dest] == CopyOf(f) &&
        (forall p :: p in files && p != dest ==> next[p] == files[p]) &&
        (forall p :: p in next && p !in files && p != dest ==> next[p] == Empty)
      else next == files
    ensures PyStaged(next, start, pyFiles[..i + 1], existing)
  {
    assert next.Keys == start.Keys + PyKeys(pyFiles[..i + 1], existing) by {
      PyStep(pyFiles, i, existing);
    }
    forall p | LastPyCopy(pyFiles[..i + 1], existing, p).Some?
      ensures p in next && next[p] == CopyOf(LastPyCopy(pyFiles[..i + 1], existing, p).value)
    {
      LastPyStep(pyFiles, i, existing, p);
    }
    forall p | p in start && LastPyCopy(pyFiles[..i + 1], existing, p).None?
      ensures p in next && next[p] == start[p]
    {
      LastPyStep(pyFiles, i, existing, p);
    }
    forall p | p in next && p !in start && LastPyCopy(pyFiles[..i + 1], existing, p).None?
      ensures next[p] == Empty
    {
      LastPyStep(pyFiles, i, existing, p);
    }
  }

  /** The same for the proto loop, where every new file is a copy. */
  ghost predicate ProtosStaged(files: map<RelPath, Content>, start: map<RelPath, Content>,
                               specs: seq<string>, existing: set<string>)
  {
    files.Keys == start.Keys + ProtoKeys(specs, existing) &&
    (forall p :: LastProtoCopy(specs, existing, p).Some? ==>
       p in files && files[p] == CopyOf(LastProtoCopy(specs, existing, p).value)) &&
    (forall p :: p in start && LastProtoCopy(specs, existing, p).None? ==>
       p in files && files[p] == start[p])
  }



  /** The staging directory after the proto loop, entry by entry. */
  function ProtoResult(start: map<RelPath, Content>, specs: seq<string>, existing: set<string>): map<RelPath, Content> {
    if specs == [] then start else
    var prev := ProtoResult(start, specs[..|specs| - 1], existing);
    var spec := ParseProtoSpec(specs[|specs| - 1]);
    if spec.src in existing then prev[Segments(spec.dest) := CopyOf(spec.src)] else prev
  }

  lemma ResultStep(start: map<RelPath, Content>, specs: seq<string>, i: int, existing: set<string>)
    requires 0 <= i < |specs|
    ensures var spec := ParseProtoSpec(specs[i]);
      var prev := ProtoResult(start, specs[..i], existing);
      ProtoResult(start, specs[..i + 1], existing) ==
        if spec.src in existing then prev[Segments(spec.dest) := CopyOf(spec.src)] else prev
  {
    assert specs[..i + 1][..i] == specs[..i];
  }

  /** The keys of the staging directory after the proto loop. */
  lemma {:induction false} ProtoResultKeys(start: map<RelPath, Content>, specs: seq<string>, existing: set<string>)
    ensures ProtoResult(start, specs, existing).Keys == start.Keys + ProtoKeys(specs, existing)
  {
    if specs != [] {
      ProtoResultKeys(start, specs[..|specs| - 1], existing);
    }
  }

  /** What the proto loop leaves at one path: the last copy made there,
      else what was there before. */
  lemma {:induction false} ProtoResultAt(start: map<RelPath, Content>, specs: seq<string>, existing: set<string>,
                                         p: RelPath)
    ensures var r := ProtoResult(start, specs, existing);
      match LastProtoCopy(specs, existing, p)
      case Some(src) => p in r && r[p] == CopyOf(src)
      case None => (p in r <==> p in start) && (p in start ==> r[p] == start[p])
  {
    if specs != [] {
      ProtoResultAt(start, specs[..|specs| - 1], existing, p);
    }
  }

  /** Every proto staged lands at its destination with the last copy
      made there, and every other file is left alone. */
  lemma ProtoResultStaged(start: map<RelPath, Content>, specs: seq<string>, existing: set<string>)
    ensures ProtosStaged(ProtoResult(start, specs, existing), start, specs, existing)
  {
    ProtoResultKeys(start, specs, existing);
    forall p {
      ProtoResultAt(start, specs, existing, p);
    }
  }


  /** The count grows by one per existing source and never exceeds the
      number of entries. */
  lemma {:induction false} CountCopiedBound(specs: seq<string>, existing: set<string>)
    ensures CountCopied(specs, existing) <= |specs|
    ensures (forall i :: 0 <= i < |specs| ==> ParseProtoSpec(specs[i]).src in existing) ==>
      CountCopied(specs, existing) == |specs|
    ensures (forall i :: 0 <= i < |specs| ==> ParseProtoSpec(specs[i]).src !in existing) ==>
      CountCopied(specs, existing) == 0
  {
    if specs != [] {
      CountCopiedBound(specs[..|specs| - 1], existing);
    }
  }

  /** The root of the staging directory never gets an `__init__.py`, and
      every directory strictly between it and the file does. */
  lemma InitFilesShape(dest: RelPath)
    ensures [InitPy] !in InitFilesFor(dest)
    ensures forall k :: 1 <= k < |dest| ==> InitFile(dest[..k]) in InitFilesFor(dest)
    ensures forall p :: p in InitFilesFor(dest) ==> 2 <= |p| <= |dest| && p[|p| - 1] == InitPy
  {
  }

  // ---------------------------------------------------------------------
  // The staging directory.

  class Staging {
    var files: map<RelPath, Content>

    constructor ()
      ensures files == map[]
    {
      files := map[];
    }

    /** The parent walk: from the file's directory up to, but not
        including, the staging root, an empty `__init__.py` is created
        wherever none exists. */
    method AddInitFiles(dest: RelPath)
      modifies this
      ensures files.Keys == old(files).Keys + InitFilesFor(dest)
      ensures forall p :: p in old(files) ==> files[p] == old(files)[p]
      ensures forall p :: p in files && p !in old(files) ==> files[p] == Empty
    {
      var current := if |dest| == 0 then 0 else |dest| - 1;
      while current > 0
        invariant 0 <= current <= |dest|
        invariant files.Keys == old(files).Keys + set k | current < k < |dest| :: InitFile(dest[..k])
        invariant forall p :: p in old(files) ==> p in files && files[p] == old(files)[p]
        invariant forall p :: p in files && p !in old(files) ==> files[p] == Empty
      {
        var init := InitFile(dest[..current]);
        if init !in files {
          files := files[init := Empty];
        }
        current := current - 1;
      }
    }

    /** Copying one Python file and walking its parents. */
    method StagePyFile(src: string, dest: RelPath)
      modifies this
      ensures files.Keys == old(files).Keys + {dest} + InitFilesFor(dest)
      ensures files[dest] == CopyOf(src)
      ensures forall p :: p in old(files) && p != dest ==> files[p] == old(files)[p]
      ensures forall p :: p in files && p !in old(files) && p != dest ==> files[p] == Empty
    {
      files := files[dest := CopyOf(src)];
      AddInitFiles(dest);
    }

    /** The script's Python-file loop: files that do not exist are skipped
        with a warning. */
    method StagePythonFiles(pyFiles: seq<string>, existing: set<string>)
      modifies this
      ensures PyStaged(files, old(files), pyFiles, existing)
    {
      var i := 0;
      while i < |pyFiles|
        invariant 0 <= i <= |pyFiles|
        invariant PyStaged(files, old(files), pyFiles[..i], existing)
      {
        var f := pyFiles[i];
        ghost var before := files;
        if f in existing {
          var dest := StripBazelPathWheel(f);
          StagePyFile(f, Segments(dest));
        }
        PyStagedStep(before, files, old(files), pyFiles, i, existing);
        i := i + 1;
      }
      assert pyFiles[..|pyFiles|] == pyFiles;
    }

    /** The script's proto loop: each entry whose source exists is copied
        to its destination and counted; the others are skipped with a warning. */
    method StageProtos(specs: seq<string>, existing: set<string>) returns (protoCount: nat)
      modifies this
      ensures protoCount == CountCopied(specs, existing)
      ensures files == ProtoResult(old(files), specs, existing)
    {
      var staged := files;
      protoCount := 0;
      var i := 0;
      while i < |specs|
        invariant 0 <= i <= |specs|
        invariant protoCount == CountCopied(specs[..i], existing)
        invariant files == old(files)
        invariant staged == ProtoResult(files, specs[..i], existing)
      {
        var spec := ParseProtoSpec(specs[i]);
        if spec.src in existing {
          staged := staged[Segments(spec.dest) := CopyOf(spec.src)];
          protoCount := protoCount + 1;
        }
        CountStep(specs, i, existing);
        ResultStep(files, specs, i, existing);
        i := i + 1;
      }
      assert specs[..|specs|] == specs;
      files := staged;
    }
  }

  /** Below the two root files, every staged file holds the last proto
      copied there, else the last Python file copied there, else it is an
      empty `__init__.py`. */
  ghost predicate WheelContents(files: map<RelPath, Content>, pyFiles: seq<string>, protoSpecs: seq<string>,
                                existing: set<string>)
  {
    (forall p :: p !in RootFiles && LastProtoCopy(protoSpecs, existing, p).Some? ==>
       p in files && files[p] == CopyOf(LastProtoCopy(protoSpecs, existing, p).value)) &&
    (forall p :: (p !in RootFiles && LastProtoCopy(protoSpecs, existing, p).None? &&
                  LastPyCopy(pyFiles, existing, p).Some?) ==>
       p in files && files[p] == CopyOf(LastPyCopy(pyFiles, existing, p).value)) &&
    (forall p :: (p in files && p !in RootFiles && LastProtoCopy(protoSpecs, existing, p).None? &&
                  LastPyCopy(pyFiles, existing, p).None?) ==>
       files[p] == Empty)
  }

  /** The loops' results, with the root files written over them, give
      `WheelContents`. */
  lemma StagedWheelContents(afterPy: map<RelPath, Content>, afterProtos: map<RelPath, Content>,
                            files: map<RelPath, Content>,
                            pyFiles: seq<string>, protoSpecs: seq<string>, existing: set<string>)
    requires PyStaged(afterPy, map[], pyFiles, existing)
    requires ProtosStaged(afterProtos, afterPy, protoSpecs, existing)
    requires files.Keys == afterProtos.Keys + RootFiles
    requires forall p :: p in afterProtos && p !in RootFiles ==> files[p] == afterProtos[p]
    ensures WheelContents(files, pyFiles, protoSpecs, existing)
  {
    forall p | p in files && p !in RootFiles && LastProtoCopy(protoSpecs, existing, p).None?
      ensures p in afterPy
    {
      LastProtoCopyKeys(protoSpecs, existing, p);
    }
  }

  /** The two files written at the staging root after the loops. */
  const RootFiles: set<RelPath> := {["setup.py"], ["MANIFEST.in"]}

  /** The staging steps of the script in order: Python files, protos, then
      `setup.py` and `MANIFEST.in` at the root. */
  method StageWheel(pyFiles: seq<string>, protoSpecs: seq<string>, existing: set<string>,
                    packageName: string, version: string)
    returns (staging: Staging, protoCount: nat)
    ensures fresh(staging)
    ensures protoCount == CountCopied(protoSpecs, existing)
    ensures staging.files.Keys ==
      PyKeys(pyFiles, existing) + ProtoKeys(protoSpecs, existing) + RootFiles
    ensures staging.files[["setup.py"]] == Generated(SetupPy(packageName, version))
    ensures staging.files[["MANIFEST.in"]] == Generated(ManifestIn)
    ensures WheelContents(staging.files, pyFiles, protoSpecs, existing)
  {
    staging := new Staging();
    staging.StagePythonFiles(pyFiles, existing);
    ghost var afterPy := staging.files;
    protoCount := staging.StageProtos(protoSpecs, existing);
    ghost var afterProtos := staging.files;
    ProtoResultStaged(afterPy, protoSpecs, existing);
    staging.files := staging.files[["setup.py"] := Generated(SetupPy(packageName, version))];
    staging.files := staging.files[["MANIFEST.in"] := Generated(ManifestIn)];
    StagedWheelContents(afterPy, afterProtos, staging.files, pyFiles, protoSpecs, existing);
  }
}
