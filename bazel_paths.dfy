/** The three artifact-path normalisers of the bundler scripts:
    `strip_bazel_path` of the wheel builder, `strip_bazel_path` of the npm
    bundler, and the inline destination rule of the two JAR bundlers.
    Each turns a Bazel output path into the path a file gets inside the
    package; they are modelled side by side so that where they part ways
    can be stated and proved. */
module BazelPaths {
  import opened Text

  const BazelOut := "bazel-out/"
  const External := "external/"
  const ParentRef := "../"
  const BinMarker := "/bin/"
  const VirtualImports := "_virtual_imports/"

  /** The first step of the wheel and npm normalisers: a `bazel-out/`
      path loses everything through the first `/bin/` (when that marker is
      found past index 0); otherwise an `external/` path loses those nine
      characters. */
  function BazelPrefixStep(path: string): string {
    if StartsWith(path, BazelOut) then
      match Find(path, BinMarker)
      case Some(i) => if i > 0 then path[i + 5..] else path
      case None => path
    else if StartsWith(path, External) then path[9..]
    else path
  }

  /** Leading `../` segments removed one at a time, for as long as there are any. */
  function StripParentRefs(path: string): string
    decreases |path|
  {
    if StartsWith(path, ParentRef) then StripParentRefs(path[3..]) else path
  }

  /** A run of `../` segments and nothing else. */
  predicate IsParentRefs(s: string)
    decreases |s|
  {
    s == "" || (StartsWith(s, ParentRef) && IsParentRefs(s[3..]))
  }

  /** The `_virtual_imports/` step of the wheel builder and JAR bundlers:
      element 1 of the split on the marker, minus its first directory. */
  function VirtualImportStep(path: string): string {
    if Contains(path, VirtualImports) then
      var parts := Split(path, VirtualImports);
      if |parts| > 1 then
        var after := parts[1];
        match Find(after, "/")
        case Some(k) => if k > 0 then after[k + 1..] else path
        case None => path
      else path
    else path
  }

  /** The wheel builder's `strip_bazel_path`, as a value. */
  function WheelStrip(path: string): string {
    VirtualImportStep(StripParentRefs(BazelPrefixStep(path)))
  }

  /** The npm bundler's `strip_bazel_path`, as a value. */
  function NpmStrip(path: string): string {
    StripParentRefs(BazelPrefixStep(path))
  }

  /** One round of the JAR bundlers' prefix loop: a matching prefix is
      dropped through the first `/` found after it. */
  function JarDropPrefix(dest: string, prefix: string): string {
    if StartsWith(dest, prefix) then
      match FindFrom(dest, "/", |prefix|)
      case Some(idx) => if idx > 0 then dest[idx + 1..] else dest
      case None => dest
    else dest
  }

  /** The JAR bundlers' destination for a proto given without `=dest`. */
  function JarStrip(src: string): string {
    VirtualImportStep(JarDropPrefix(JarDropPrefix(src, BazelOut), External))
  }

  /** A relative path inside a staging directory, one entry per segment. */
  type RelPath = seq<string>

  /** A '/'-separated path as its segments, split at every `/`. Empty and
      `.` segments are kept, where `Path(root) / path` would drop them. */
  function Segments(path: string): (r: RelPath)
    ensures |r| >= 1
  {
    Split(path, "/")
  }

  /** A `--proto-sources` entry: where the file is read and where it goes. */
  datatype ProtoSpec = ProtoSpec(src: string, dest: string)

  /** The explicit form `src=dest` of a proto entry, split at its first
      `=`, with the destination taken verbatim; `None` when there is no `=`. */
  function SplitExplicit(spec: string): (r: Option<ProtoSpec>)
    ensures r.None? <==> !HasChar(spec, '=')
    ensures r.Some? ==> spec == r.value.src + "=" + r.value.dest && !HasChar(r.value.src, '=')
  {
    ContainsCharIffHasChar(spec, '=');
    match SplitFirst(spec, "=")
    case Some((src, dest)) =>
      ContainsCharIffHasChar(src, '=');
      Some(ProtoSpec(src, dest))
    case None => None
  }

  /** Writing `src=dest` with a source free of `=` is read back as given,
      whatever `dest` holds. */
  lemma SplitExplicitRoundTrip(src: string, dest: string)
    requires !HasChar(src, '=')
    ensures SplitExplicit(src + "=" + dest) == Some(ProtoSpec(src, dest))
  {
    var spec := src + "=" + dest;
    assert spec[|src|] == '=';
    SplitFirstAtChar(src, '=', dest);
  }

  // ---------------------------------------------------------------------
  // The loops of the scripts, proved against the functions above.

  /** The wheel builder's `strip_bazel_path` with its `while` loop over
      leading `../`. */
  method StripBazelPathWheel(path: string) returns (r: string)
    ensures r == WheelStrip(path)
  {
    r := BazelPrefixStep(path);
    while StartsWith(r, ParentRef)
      invariant StripParentRefs(r) == StripParentRefs(BazelPrefixStep(path))
      decreases |r|
    {
      r := r[3..];
    }
    r := VirtualImportStep(r);
  }

  /** The npm bundler's `strip_bazel_path`: the same loop, no
      `_virtual_imports/` step. */
  method StripBazelPathNpm(path: string) returns (r: string)
    ensures r == NpmStrip(path)
    ensures !StartsWith(r, ParentRef)
  {
    r := BazelPrefixStep(path);
    while StartsWith(r, ParentRef)
      invariant StripParentRefs(r) == StripParentRefs(BazelPrefixStep(path))
      decreases |r|
    {
      r := r[3..];
    }
  }

  /** The JAR bundlers' destination rule: the loop over the two prefixes
      in order, each checked against the result of the one before. */
  method DeriveJarDest(src: string) returns (dest: string)
    ensures dest == JarStrip(src)
  {
    var prefixes := [BazelOut, External];
    dest := src;
    var n := 0;
    while n < |prefixes|
      invariant 0 <= n <= |prefixes|
      invariant dest == if n == 0 then src
                        else if n == 1 then JarDropPrefix(src, BazelOut)
                        else JarDropPrefix(JarDropPrefix(src, BazelOut), External)
    {
      var prefix := prefixes[n];
      if StartsWith(dest, prefix) {
        var idx := FindFrom(dest, "/", |prefix|);
        if idx.Some? && idx.value > 0 {
          dest := dest[idx.value + 1..];
        }
      }
      n := n + 1;
    }
    dest := VirtualImportStep(dest);
  }

  // ---------------------------------------------------------------------
  // Properties of the normalisers.

  /** A `bazel-out/` path holding `/bin/` is cut to the text after the
      first `/bin/`; without the marker it is left as it is. */
  lemma BazelOutCutAtBin(path: string)
    requires StartsWith(path, BazelOut)
    ensures Contains(path, BinMarker) ==> BazelPrefixStep(path) == SplitFirst(path, BinMarker).value.1
    ensures !Contains(path, BinMarker) ==> BazelPrefixStep(path) == path
  {
    FindIffContains(path, BinMarker);
    if Contains(path, BinMarker) {
      var i := Find(path, BinMarker).value;
      assert path[..|BazelOut|] == BazelOut;
      if i == 0 {
        assert path[0..5] == BinMarker;
        assert path[0] == 'b';
      }
    }
  }

  /** `external/` is removed as exactly nine characters, and only from a
      path that does not start with `bazel-out/`. */
  lemma ExternalDropsNine(path: string)
    requires StartsWith(path, External)
    ensures !StartsWith(path, BazelOut)
    ensures BazelPrefixStep(path) == path[|External|..] && |External| == 9
  {
    assert path[0] == 'e';
  }

  /** What the `../` loop leaves never starts with `../`, and what it
      removed is a run of `../` segments. */
  lemma {:induction false} StripParentRefsSpec(path: string)
    ensures !StartsWith(StripParentRefs(path), ParentRef)
    ensures var r := StripParentRefs(path);
      |r| <= |path| && path == path[..|path| - |r|] + r && IsParentRefs(path[..|path| - |r|])
    decreases |path|
  {
    if StartsWith(path, ParentRef) {
      var rest := path[3..];
      StripParentRefsSpec(rest);
      var r := StripParentRefs(rest);
      var pre := path[..|path| - |r|];
      assert pre[..3] == ParentRef;
      assert pre[3..] == rest[..|rest| - |r|];
    }
  }

  /** After the wheel builder's prefix and `../` steps nothing starts with `../`. */
  lemma WheelNoLeadingParentRef(path: string)
    ensures !StartsWith(StripParentRefs(BazelPrefixStep(path)), ParentRef)
  {
    StripParentRefsSpec(BazelPrefixStep(path));
  }

  /** The `_virtual_imports/` rule: take the text between the first and the
      second occurrence of the marker (or to the end), and drop its first
      directory, provided that directory has a non-empty name. */
  lemma VirtualImportRule(path: string)
    ensures !Contains(path, VirtualImports) ==> VirtualImportStep(path) == path
    ensures Contains(path, VirtualImports) ==>
      var after := BeforeFirst(SplitFirst(path, VirtualImports).value.1, VirtualImports);
      VirtualImportStep(path) ==
        match SplitFirst(after, "/")
        case Some((dir, rest)) => if dir != "" then rest else path
        case None => path
  {
    if Contains(path, VirtualImports) {
      FindIffContains(path, VirtualImports);
      var i := Find(path, VirtualImports).value;
      var tail := path[i + |VirtualImports|..];
      assert Split(path, VirtualImports) == [path[..i]] + Split(tail, VirtualImports);
      assert Split(path, VirtualImports)[1] == Split(tail, VirtualImports)[0];
      var after := Split(tail, VirtualImports)[0];
      FindIffContains(after, "/");
      match Find(after, "/")
      case None =>
      case Some(k) =>
        PrefixBeforeFirst(after, "/", k);
    }
  }

  /** A path with none of the markers comes out of the wheel builder unchanged. */
  lemma WheelUnmarkedUnchanged(path: string)
    requires !StartsWith(path, BazelOut) && !StartsWith(path, External)
    requires !StartsWith(path, ParentRef) && !Contains(path, VirtualImports)
    ensures WheelStrip(path) == path
  {
  }

  /** The npm normaliser is the wheel builder's without the virtual-import
      step: they agree exactly when that step changes nothing. */
  lemma NpmIsWheelWithoutVirtualImports(path: string)
    ensures WheelStrip(path) == VirtualImportStep(NpmStrip(path))
    ensures !Contains(NpmStrip(path), VirtualImports) ==> WheelStrip(path) == NpmStrip(path)
  {
  }

  /** `_virtual_imports/` has no border, so it cannot straddle the end of
      a text that does not hold it. */
  lemma VirtualImportsUnbordered()
    ensures Unbordered(VirtualImports)
  {
    var v := VirtualImports;
    forall t | 0 < t < |v| ensures v[t..] != v[..|v| - t] {
      if t == 8 {
        assert v[9] != v[1];
        assert v[t..][1] == v[9] && v[..|v| - t][1] == v[1];
      } else {
        assert v[t] != v[0];
        assert v[t..][0] == v[t] && v[..|v| - t][0] == v[0];
      }
    }
  }

  /** Where the wheel and npm normalisers differ: a virtual import
      `<pre>_virtual_imports/<dir>/<file>` is flattened to `<file>` by the
      wheel builder and kept whole by the npm bundler. */
  lemma VirtualImportFlattened(pre: string, dir: string, file: string)
    requires !Contains(pre, VirtualImports)
    requires dir != "" && !HasChar(dir, '/')
    requires !Contains(dir + "/" + file, VirtualImports)
    requires var path := pre + VirtualImports + (dir + "/" + file);
      !StartsWith(path, BazelOut) && !StartsWith(path, External) && !StartsWith(path, ParentRef)
    ensures WheelStrip(pre + VirtualImports + (dir + "/" + file)) == file
    ensures NpmStrip(pre + VirtualImports + (dir + "/" + file)) == pre + VirtualImports + (dir + "/" + file)
  {
    var tail := dir + "/" + file;
    var path := pre + VirtualImports + tail;
    VirtualImportsUnbordered();
    UnborderedFreeHead(pre, VirtualImports);
    SplitFirstConcat(pre, VirtualImports, tail);
    FindIffContains(path, VirtualImports);
    FindIffContains(tail, VirtualImports);
    assert BeforeFirst(tail, VirtualImports) == tail;
    VirtualImportRule(path);
    SplitFirstAtChar(dir, '/', file);
  }

  /** In `bazel-out/<cfg>` with a one-directory configuration name the
      only `/` is the one closing `bazel-out/`. */
  lemma OnlySlashClosesBazelOut(cfg: string, k: int)
    requires !HasChar(cfg, '/') && 0 <= k < |BazelOut + cfg|
    ensures (BazelOut + cfg)[k] == '/' <==> k == |BazelOut| - 1
  {
    if k >= |BazelOut| {
      assert (BazelOut + cfg)[k] == cfg[k - |BazelOut|];
    }
  }

  /** `bazel-out/<cfg>` never holds `/bin/`, whose two slashes are four apart. */
  lemma NoBinInConfig(cfg: string)
    requires !HasChar(cfg, '/')
    ensures !Contains(BazelOut + cfg, BinMarker)
  {
    var q := BazelOut + cfg;
    if Contains(q, BinMarker) {
      var j :| 0 <= j <= |q| - 5 && OccursAt(q, BinMarker, j);
      assert q[j..j + 5] == BinMarker;
      assert q[j] == '/' && q[j + 4] == '/';
      OnlySlashClosesBazelOut(cfg, j);
      OnlySlashClosesBazelOut(cfg, j + 4);
    }
  }

  /** The JAR rule drops `bazel-out/<cfg>/` and nothing more. */
  lemma JarDropsConfig(cfg: string, tail: string)
    requires cfg != "" && !HasChar(cfg, '/')
    ensures JarDropPrefix(BazelOut + cfg + "/" + tail, BazelOut) == tail
  {
    JarDropsDir(BazelOut, cfg, tail);
  }

  /** `bazel-out/<cfg>` followed by `/bin` holds no `/bin/` unless the
      configuration directory is itself named `bin`. */
  lemma BinFreeAfterConfig(cfg: string)
    requires !HasChar(cfg, '/') && cfg != "bin"
    ensures FreeHead(BazelOut + cfg, BinMarker)
  {
    forall j ensures !OccursAt(BazelOut + cfg + BinMarker[..4], BinMarker, j) {
      NoBinAt(cfg, j);
    }
  }

  /** The position-by-position argument: an occurrence needs slashes at
      `j` and `j + 4`, and the only candidate `j = 9` spells `cfg == "bin"`. */
  lemma NoBinAt(cfg: string, j: int)
    requires !HasChar(cfg, '/') && cfg != "bin"
    ensures !OccursAt(BazelOut + cfg + BinMarker[..4], BinMarker, j)
  {
    var q := BazelOut + cfg;
    var h := q + BinMarker[..4];
    if 0 <= j <= |h| - 5 {
      if j != 9 {
        assert h[j] == q[j];
        OnlySlashClosesBazelOut(cfg, j);
        assert h[j..j + 5][0] != BinMarker[0];
      } else if |cfg| > 3 {
        assert h[13] == q[13];
        OnlySlashClosesBazelOut(cfg, 13);
        assert h[j..j + 5][4] != BinMarker[4];
      } else if |cfg| < 3 {
        assert h[13] == BinMarker[13 - |q|];
        assert h[j..j + 5][4] != BinMarker[4];
      } else {
        assert h[10..13] == cfg;
        assert h[j..j + 5][1..4] == h[10..13];
        assert h[j..j + 5][1..4] != BinMarker[1..4];
      }
    }
  }

  /** The JAR rule keeps the `bin/` directory of a Bazel output path,
      which the wheel builder removes. */
  lemma JarKeepsBin(cfg: string, rest: string)
    requires cfg != "" && cfg != "bin" && !HasChar(cfg, '/')
    requires !Contains(rest, VirtualImports) && !StartsWith(rest, ParentRef)
    ensures JarStrip(BazelOut + cfg + BinMarker + rest) == "bin/" + rest
    ensures WheelStrip(BazelOut + cfg + BinMarker + rest) == rest
  {
    var p := BazelOut + cfg + BinMarker + rest;
    assert p == BazelOut + cfg + "/" + ("bin/" + rest);
    JarDropsConfig(cfg, "bin/" + rest);
    var jarOut := "bin/" + rest;
    BinDirPlain(rest);
    VirtualImportRule(jarOut);
    BinFreeAfterConfig(cfg);
    FindConcat(BazelOut + cfg, BinMarker, rest);
    assert p[..|BazelOut|] == BazelOut;
    assert p[|BazelOut + cfg| + 5..] == rest;
    assert BazelPrefixStep(p) == rest;
    VirtualImportRule(rest);
  }

  /** `bin/<rest>` is no `external/` path and holds no virtual import
      when `rest` holds none. */
  lemma BinDirPlain(rest: string)
    requires !Contains(rest, VirtualImports)
    ensures !StartsWith("bin/" + rest, External) && !Contains("bin/" + rest, VirtualImports)
  {
    var s := "bin/" + rest;
    assert s[0] == 'b';
    if Contains(s, VirtualImports) {
      var j :| 0 <= j <= |s| - |VirtualImports| && OccursAt(s, VirtualImports, j);
      assert s[j] == s[j..j + |VirtualImports|][0] == '_';
      OccursInTail("bin/", rest, VirtualImports, j);
    }
  }

  /** The exception: with a configuration directory named `bin` the first
      `/bin/` is the one closing `bazel-out/bin`, and the wheel builder
      keeps the second `bin/`. */
  lemma WheelCutsAtConfigNamedBin(rest: string)
    ensures BazelPrefixStep(BazelOut + "bin" + BinMarker + rest) == "bin/" + rest
  {
    var p := BazelOut + "bin" + BinMarker + rest;
    assert p == BazelOut[..9] + BinMarker + ("bin/" + rest);
    assert BazelOut[..9] + BinMarker[..4] == "bazel-out/bin";
    var h := "bazel-out/bin";
    forall j ensures !OccursAt(h, BinMarker, j) {
      if 0 <= j <= |h| - 5 {
        assert h[j] != '/';
        assert h[j..j + 5][0] != BinMarker[0];
      }
    }
    FindConcat(BazelOut[..9], BinMarker, "bin/" + rest);
    assert p[..|BazelOut|] == BazelOut;
    assert p[14..] == "bin/" + rest;
  }

  /** The JAR rule leaves leading `../` in place; the wheel builder removes it. */
  lemma JarKeepsParentRefs(rest: string)
    requires !StartsWith(rest, ParentRef) && !Contains(rest, VirtualImports)
    ensures JarStrip(ParentRef + rest) == ParentRef + rest
    ensures WheelStrip(ParentRef + rest) == rest
  {
    var p := ParentRef + rest;
    assert p[..3] == ParentRef && p[3..] == rest;
    assert p[0] == '.' && BazelOut[0] == 'b' && External[0] == 'e';
    assert !StartsWith(p, BazelOut) && !StartsWith(p, External);
    assert !Contains(p, VirtualImports) by {
      if Contains(p, VirtualImports) {
        var j :| 0 <= j <= |p| - |VirtualImports| && OccursAt(p, VirtualImports, j);
        assert p[j] == p[j..j + |VirtualImports|][0] == '_';
        OccursInTail(ParentRef, rest, VirtualImports, j);
      }
    }
    VirtualImportRule(p);
    VirtualImportRule(rest);
    assert JarDropPrefix(JarDropPrefix(p, BazelOut), External) == p;
    assert BazelPrefixStep(p) == p;
    assert StartsWith(p, ParentRef);
    assert StripParentRefs(rest) == rest;
    assert StripParentRefs(p) == rest;
  }

  /** The JAR prefix loop drops a matching prefix through the first `/`
      after it. */
  lemma JarDropsDir(prefix: string, dir: string, tail: string)
    requires dir != "" && !HasChar(dir, '/')
    ensures JarDropPrefix(prefix + dir + "/" + tail, prefix) == tail
  {
    var p := prefix + dir + "/" + tail;
    assert p[..|prefix|] == prefix;
    assert p[|prefix| + |dir|] == '/';
    assert OccursAt(p, "/", |prefix| + |dir|);
    forall j | |prefix| <= j < |prefix| + |dir| ensures !OccursAt(p, "/", j) {
      assert p[j] == dir[j - |prefix|];
    }
    assert p[|prefix| + |dir| + 1..] == tail;
  }

  /** The JAR prefix loop tests `external/` on what the `bazel-out/` round
      left, so an output path whose configuration directory is followed by
      `external/<repo>/` loses both. */
  lemma JarPrefixesChain(cfg: string, repo: string, file: string)
    requires cfg != "" && !HasChar(cfg, '/') && repo != "" && !HasChar(repo, '/')
    requires !Contains(file, VirtualImports)
    ensures JarDropPrefix(BazelOut + cfg + "/" + (External + repo + "/" + file), BazelOut) == External + repo + "/" + file
    ensures JarStrip(BazelOut + cfg + "/" + (External + repo + "/" + file)) == file
  {
    var q := External + repo + "/" + file;
    JarDropsDir(BazelOut, cfg, q);
    assert StartsWith(q, External) by {
      assert q[..|External|] == External;
    }
    JarDropsDir(External, repo, file);
    VirtualImportRule(file);
  }
}
