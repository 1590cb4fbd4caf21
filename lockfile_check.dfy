/** The lockfile guard (`check_lockfile_generated.py`): it reports the
    entries of an npm `package-lock.json` that point into a protolake
    workspace, looking at the `packages` table of lockfile versions 2 and
    3 and, recursively, at the `dependencies` tree of version 1. */
module LockfileCheck {
  import opened Text
  import opened Json

  // ---------------------------------------------------------------------
  // The path tests.

  /** `_is_protolake_path(path)`. */
  predicate IsProtolakePath(path: string) {
    Contains(path, "/protolake/") || Contains(path, "\\protolake\\") || StartsWith(path, "protolake/")
  }

  /** `_is_protolake_resolved(resolved)`: a `file:` reference whose path
      passes the path test. */
  predicate IsProtolakeResolved(resolved: string) {
    StartsWith(resolved, "file:") && IsProtolakePath(resolved[5..])
  }

  /** A resolved value is a protolake one exactly when it is `file:`
      followed by a protolake path. */
  lemma ResolvedIsFilePath(resolved: string)
    ensures IsProtolakeResolved(resolved) <==> exists p :: resolved == "file:" + p && IsProtolakePath(p)
  {
    if IsProtolakeResolved(resolved) {
      assert resolved == "file:" + resolved[5..];
    }
    forall p | resolved == "file:" + p && IsProtolakePath(p) ensures IsProtolakeResolved(resolved) {
      assert resolved[..5] == "file:" && resolved[5..] == p;
    }
  }

  /** Any path with a `protolake` directory in the middle is caught, and
      so is a `file:` reference to it. */
  lemma SegmentIsCaught(a: string, b: string)
    ensures IsProtolakePath(a + "/protolake/" + b)
    ensures IsProtolakeResolved("file:" + a + "/protolake/" + b)
  {
    var p := a + "/protolake/" + b;
    assert OccursAt(p, "/protolake/", |a|) by {
      assert p[|a|..|a| + 11] == "/protolake/";
    }
    assert ("file:" + a + "/protolake/" + b)[5..] == p;
  }

  lemma MentionsProtolake(p: string)
    requires IsProtolakePath(p)
    ensures Contains(p, "protolake")
  {
    if Contains(p, "/protolake/") {
      var i :| 0 <= i <= |p| - 11 && OccursAt(p, "/protolake/", i);
      assert p[i + 1..i + 10] == p[i..i + 11][1..10];
      assert OccursAt(p, "protolake", i + 1);
    } else if Contains(p, "\\protolake\\") {
      var i :| 0 <= i <= |p| - 11 && OccursAt(p, "\\protolake\\", i);
      assert p[i + 1..i + 10] == p[i..i + 11][1..10];
      assert OccursAt(p, "protolake", i + 1);
    } else {
      assert p[0..9] == p[..10][..9];
      assert OccursAt(p, "protolake", 0);
    }
  }

  /** Nothing without the word `protolake` in it is ever reported. */
  lemma NeedsProtolake(s: string)
    requires !Contains(s, "protolake")
    ensures !IsProtolakePath(s) && !IsProtolakeResolved(s)
  {
    if IsProtolakePath(s) {
      MentionsProtolake(s);
    }
    if |s| >= 5 {
      ContainsInSlice(s, 5, |s|, "protolake");
      assert s[5..|s|] == s[5..];
      if IsProtolakePath(s[5..]) {
        MentionsProtolake(s[5..]);
      }
    }
  }

  // ---------------------------------------------------------------------
  // The `packages` table (lockfile versions 2 and 3).

  /** `f.split(' ')[0]`: the text before the first space. */
  function FirstWord(f: string): (r: string)
    ensures StartsWith(f, r)
  {
    if f == [] || f[0] == ' ' then [] else [f[0]] + FirstWord(f[1..])
  }

  /** `[f.split(' ')[0] for f in findings]`. */
  function FirstWords(findings: seq<string>): (r: seq<string>)
    ensures |r| == |findings|
    ensures forall i :: 0 <= i < |findings| ==> r[i] == FirstWord(findings[i])
  {
    if findings == [] then [] else [FirstWord(findings[0])] + FirstWords(findings[1..])
  }

  /** A name without spaces is the first word of itself followed by
      nothing or by a space. */
  lemma {:induction false} FirstWordOf(key: string, rest: string)
    requires !HasChar(key, ' ')
    requires rest == "" || rest[0] == ' '
    ensures FirstWord(key + rest) == key
  {
    if key == [] {
      assert key + rest == rest;
    } else {
      assert (key + rest)[1..] == key[1..] + rest;
      assert !HasChar(key[1..], ' ') by {
        forall i | 0 <= i < |key[1..]| ensures key[1..][i] != ' ' {
          assert key[1..][i] == key[i + 1];
        }
      }
      FirstWordOf(key[1..], rest);
      assert key == [key[0]] + key[1..];
    }
  }

  /** The first word is the first part of splitting at spaces. */
  lemma FirstWordIsSplit(f: string)
    ensures FirstWord(f) == Split(f, " ")[0]
  {
    if HasChar(f, ' ') {
      var i := FirstSpace(f);
      assert f == f[..i] + [' '] + f[i + 1..];
      FirstWordOf(f[..i], f[i..]);
      assert f[..i] + f[i..] == f;
      SplitAtChar(f[..i], ' ', f[i + 1..]);
    } else {
      FirstWordOf(f, "");
      assert f + "" == f;
      ContainsCharIffHasChar(f, ' ');
      FindIffContains(f, " ");
    }
  }

  /** Where the first space is. */
  lemma {:induction false} FirstSpace(f: string) returns (i: nat)
    requires HasChar(f, ' ')
    ensures i < |f| && f[i] == ' ' && !HasChar(f[..i], ' ')
  {
    if f[0] == ' ' {
      i := 0;
      assert f[..0] == [];
    } else {
      assert HasChar(f[1..], ' ') by {
        var k :| 0 <= k < |f| && f[k] == ' ';
        assert f[1..][k - 1] == ' ';
      }
      var j := FirstSpace(f[1..]);
      i := j + 1;
      assert f[..i] == [f[0]] + f[1..][..j];
      assert !HasChar(f[..i], ' ') by {
        forall k | 0 <= k < i ensures f[..i][k] != ' ' {
          if k > 0 {
            assert f[..i][k] == f[1..][..j][k - 1];
          }
        }
      }
    }
  }

  /** The suffix of a finding for a package linked into the workspace. */
  function LinkInfo(value: Json): string
    requires value.Obj?
  {
    if Truthy(Get(value.fields, "link", Null)) then " (link: true)" else ""
  }

  /** The `resolved` value of an entry when it is a protolake one. */
  function ResolvedHit(value: Json): (r: Option<string>)
    ensures r.Some? ==> IsProtolakeResolved(r.value)
  {
    if value.Obj? then
      var resolved := Get(value.fields, "resolved", Str(""));
      if resolved.Str? && IsProtolakeResolved(resolved.s) then Some(resolved.s) else None
    else None
  }

  /** One turn of the `packages` loop, or `None` when it raises: a
      protolake key whose value is not a dict fails on `value.get`. */
  function PackageStep(key: string, value: Json, findings: seq<string>): Option<seq<string>> {
    var afterPath :=
      if !IsProtolakePath(key) then Some(findings)
      else if value.Obj? then Some(findings + [key + LinkInfo(value)])
      else None;
    match afterPath
    case None => None
    case Some(f) =>
      match ResolvedHit(value)
      case Some(resolved) =>
        if key in FirstWords(f) then Some(f) else Some(f + [key + " (resolved: " + resolved + ")"])
      case None => Some(f)
  }

  /** The findings of the `packages` loop over `fields`, in order. */
  function PackagesScan(fields: seq<Field>): Option<seq<string>> {
    if fields == [] then Some([])
    else
      var last := fields[|fields| - 1];
      match PackagesScan(fields[..|fields| - 1])
      case None => None
      case Some(f) => PackageStep(last.key, last.value, f)
  }

  lemma PackagesScanSnoc(fields: seq<Field>, x: Field)
    ensures PackagesScan(fields + [x]) ==
      match PackagesScan(fields) case None => None case Some(f) => PackageStep(x.key, x.value, f)
  {
    assert (fields + [x])[..|fields|] == fields;
  }

  /** The loop raises exactly when some protolake key has a value that is
      not a dict. */
  lemma {:induction false} PackagesScanRaises(fields: seq<Field>)
    ensures PackagesScan(fields).None? <==>
      exists i :: 0 <= i < |fields| && IsProtolakePath(fields[i].key) && !fields[i].value.Obj?
  {
    if fields != [] {
      var front := fields[..|fields| - 1];
      PackagesScanRaises(front);
      assert forall i :: 0 <= i < |front| ==> front[i] == fields[i];
    }
  }

  /** Findings are only ever appended. */
  lemma {:induction false} PackagesScanGrows(fields: seq<Field>, n: nat)
    requires n <= |fields| && PackagesScan(fields).Some?
    ensures PackagesScan(fields[..n]).Some?
    ensures PackagesScan(fields[..n]).value <= PackagesScan(fields).value
    decreases |fields|
  {
    if n < |fields| {
      var front := fields[..|fields| - 1];
      assert fields[..n] == front[..n];
      PackagesScanGrows(front, n);
    } else {
      assert fields[..n] == fields;
    }
  }

  /** One turn only appends, and reports what it has to. */
  lemma PackageStepReports(key: string, value: Json, f: seq<string>)
    requires PackageStep(key, value, f).Some?
    ensures f <= PackageStep(key, value, f).value
    ensures IsProtolakePath(key) ==>
      value.Obj? && key + LinkInfo(value) in PackageStep(key, value, f).value
    ensures ResolvedHit(value).Some? ==>
      exists g :: g in PackageStep(key, value, f).value && StartsWith(g, key)
  {
    var r := PackageStep(key, value, f).value;
    var f1 := if IsProtolakePath(key) then f + [key + LinkInfo(value)] else f;
    assert f1 <= r;
    if IsProtolakePath(key) {
      assert f1[|f|] == key + LinkInfo(value);
    }
    if ResolvedHit(value).Some? {
      var resolved := ResolvedHit(value).value;
      if key in FirstWords(f1) {
        var j :| 0 <= j < |f1| && FirstWords(f1)[j] == key;
        assert f1[j] in r && StartsWith(f1[j], key);
      } else {
        var g := key + " (resolved: " + resolved + ")";
        assert r == f1 + [g] && r[|f1|] == g;
        assert g[..|key|] == key;
        assert g in r && StartsWith(g, key);
      }
    }
  }

  /** Every protolake key is reported with its link marker, and every
      key with a protolake `resolved` value has a finding that starts
      with it. */
  lemma PackagesScanReports(fields: seq<Field>, i: nat)
    requires PackagesScan(fields).Some? && i < |fields|
    ensures IsProtolakePath(fields[i].key) ==>
      fields[i].value.Obj? && fields[i].key + LinkInfo(fields[i].value) in PackagesScan(fields).value
    ensures ResolvedHit(fields[i].value).Some? ==>
      exists g :: g in PackagesScan(fields).value && StartsWith(g, fields[i].key)
  {
    var key, value := fields[i].key, fields[i].value;
    var before, here := PackagesScanAt(fields, i);
    var found := PackagesScan(fields).value;
    PackageStepReports(key, value, before);
    if IsProtolakePath(key) {
      PrefixMember(here, found, key + LinkInfo(value));
    }
    if ResolvedHit(value).Some? {
      var g :| g in here && StartsWith(g, key);
      PrefixMember(here, found, g);
    }
  }

  lemma PrefixMember(a: seq<string>, b: seq<string>, x: string)
    requires a <= b && x in a
    ensures x in b
  {
    var k :| 0 <= k < |a| && a[k] == x;
    assert b[k] == x;
  }

  /** The findings just before and just after the turn for entry `i`. */
  lemma PackagesScanAt(fields: seq<Field>, i: nat) returns (before: seq<string>, here: seq<string>)
    requires PackagesScan(fields).Some? && i < |fields|
    ensures PackageStep(fields[i].key, fields[i].value, before) == Some(here)
    ensures here <= PackagesScan(fields).value
  {
    PackagesScanGrows(fields, i + 1);
    PackagesScanGrows(fields, i);
    assert fields[..i + 1] == fields[..i] + [fields[i]];
    PackagesScanSnoc(fields[..i], fields[i]);
    before := PackagesScan(fields[..i]).value;
    here := PackagesScan(fields[..i + 1]).value;
  }

  /** First words of findings that are distinct members of `keys`. */
  predicate ReportedOnce(findings: seq<string>, keys: seq<string>) {
    (forall a :: 0 <= a < |findings| ==> FirstWord(findings[a]) in keys) &&
    (forall a, b :: 0 <= a < b < |findings| ==> FirstWord(findings[a]) != FirstWord(findings[b]))
  }

  /** Appending a finding for a key not yet reported. */
  lemma ReportedOnceSnoc(f: seq<string>, keys: seq<string>, key: string, g: string)
    requires ReportedOnce(f, keys) && key !in keys && FirstWord(g) == key
    ensures ReportedOnce(f + [g], keys + [key])
    ensures key in FirstWords(f + [g])
  {
    var f' := f + [g];
    assert FirstWords(f')[|f|] == key;
    forall a, b | 0 <= a < b < |f'| ensures FirstWord(f'[a]) != FirstWord(f'[b]) {
      assert f'[a] == f[a];
      if b < |f| {
        assert f'[b] == f[b];
      }
    }
    forall a | 0 <= a < |f'| ensures FirstWord(f'[a]) in keys + [key] {
      if a < |f| {
        assert f'[a] == f[a];
      }
    }
  }

  lemma ReportedOnceWiden(f: seq<string>, keys: seq<string>, key: string)
    requires ReportedOnce(f, keys)
    ensures ReportedOnce(f, keys + [key])
  {
  }

  /** One turn of the loop for a fresh key without spaces reports it at
      most once. */
  lemma PackageStepOnce(key: string, value: Json, f: seq<string>, keys: seq<string>)
    requires PackageStep(key, value, f).Some?
    requires ReportedOnce(f, keys) && key !in keys && !HasChar(key, ' ')
    ensures ReportedOnce(PackageStep(key, value, f).value, keys + [key])
  {
    var r := PackageStep(key, value, f).value;
    var f1 := if IsProtolakePath(key) then f + [key + LinkInfo(value)] else f;
    if IsProtolakePath(key) {
      FirstWordOf(key, LinkInfo(value));
      ReportedOnceSnoc(f, keys, key, key + LinkInfo(value));
    } else {
      ReportedOnceWiden(f, keys, key);
    }
    assert ReportedOnce(f1, keys + [key]);
    if r != f1 {
      var resolved := ResolvedHit(value).value;
      var rest := " (resolved: " + resolved + ")";
      var g := key + " (resolved: " + resolved + ")";
      assert g == key + rest;
      FirstWordOf(key, rest);
      assert key !in FirstWords(f1) && !IsProtolakePath(key);
      assert r == f + [g];
      ReportedOnceSnoc(f, keys, key, g);
    }
  }

  /** In a table whose keys are distinct and have no spaces, each key is
      reported at most once: the first words of the findings are
      distinct keys of the table. */
  lemma {:induction false} PackagesScanOnce(fields: seq<Field>)
    requires UniqueKeys(fields)
    requires forall i :: 0 <= i < |fields| ==> !HasChar(fields[i].key, ' ')
    requires PackagesScan(fields).Some?
    ensures ReportedOnce(PackagesScan(fields).value, Keys(fields))
    decreases |fields|
  {
    if fields != [] {
      var front, x := fields[..|fields| - 1], fields[|fields| - 1];
      assert front + [x] == fields;
      PackagesScanSnoc(front, x);
      assert forall i :: 0 <= i < |front| ==> front[i] == fields[i];
      PackagesScanOnce(front);
      KeysAppend(front, [x]);
      assert x.key !in Keys(front) by {
        forall i | 0 <= i < |front| ensures Keys(front)[i] != x.key {
          assert Keys(front)[i] == fields[i].key;
        }
      }
      PackageStepOnce(x.key, x.value, PackagesScan(front).value, Keys(front));
    }
  }

  // ---------------------------------------------------------------------
  // The `dependencies` tree (lockfile version 1).

  /** A finding of the version 1 scan: the entry's path, what matched and
      its value. */
  function Tagged(prefix: string, name: string, what: string, value: string): string {
    prefix + name + " (" + what + ": " + value + ")"
  }

  /** What `info.get(field, '')` contributes when it is a protolake
      `file:` reference. */
  function FieldHit(info: seq<Field>, prefix: string, name: string, field: string): (r: seq<string>)
    ensures |r| <= 1
  {
    var value := Get(info, field, Str(""));
    if value.Str? && IsProtolakeResolved(value.s) then [Tagged(prefix, name, field, value.s)] else []
  }

  /** `_check_dependencies_recursive(deps, findings, prefix)`: what it
      appends for a dict of entries. */
  function DepFieldsFindings(fields: seq<Field>, prefix: string): seq<string>
    decreases fields
  {
    if fields == [] then [] else EntryFindings(fields[0], prefix) + DepFieldsFindings(fields[1..], prefix)
  }

  /** What one entry appends: a `version` hit, a `resolved` hit, then the
      findings of its nested dependencies; an entry whose value is not a
      dict is skipped. */
  function EntryFindings(entry: Field, prefix: string): seq<string>
    decreases entry
  {
    match entry.value
    case Obj(info) =>
      FieldHit(info, prefix, entry.key, "version") + FieldHit(info, prefix, entry.key, "resolved") +
      NestedFindings(info, prefix + entry.key + "/")
    case _ => []
  }

  /** The findings of an entry's `dependencies` dict, under `below`. */
  function NestedFindings(info: seq<Field>, below: string): seq<string>
    decreases info
  {
    match Position(info, "dependencies")
    case Some(j) => (match info[j].value
      case Obj(children) => DepFieldsFindings(children, below)
      case _ => [])
    case None => []
  }

  /** The whole call: a value that is not a dict adds nothing. */
  lemma DepFieldsFindingsStep(fields: seq<Field>, i: nat, prefix: string)
    requires i < |fields|
    ensures DepFieldsFindings(fields[..i + 1], prefix) == DepFieldsFindings(fields[..i], prefix) + EntryFindings(fields[i], prefix)
  {
    assert fields[..i + 1] == fields[..i] + [fields[i]];
    DepFieldsFindingsSnoc(fields[..i], fields[i], prefix);
  }

  function DepFindings(deps: Json, prefix: string): seq<string> {
    if deps.Obj? then DepFieldsFindings(deps.fields, prefix) else []
  }

  lemma {:induction false} DepFieldsFindingsSnoc(fields: seq<Field>, x: Field, prefix: string)
    ensures DepFieldsFindings(fields + [x], prefix) == DepFieldsFindings(fields, prefix) + EntryFindings(x, prefix)
  {
    if fields == [] {
      assert [x][1..] == [];
    } else {
      assert (fields + [x])[1..] == fields[1..] + [x];
      DepFieldsFindingsSnoc(fields[1..], x, prefix);
    }
  }

  /** The findings of the entry at position `i` are among the findings of
      the dict. */
  lemma {:induction false} DepFieldsFindingsHas(fields: seq<Field>, i: nat, prefix: string)
    requires i < |fields|
    ensures forall g :: g in EntryFindings(fields[i], prefix) ==> g in DepFieldsFindings(fields, prefix)
  {
    if i > 0 {
      DepFieldsFindingsHas(fields[1..], i - 1, prefix);
    }
  }

  /** Every finding names a path under the prefix. */
  lemma {:induction false} DepFindingsUnderPrefix(fields: seq<Field>, prefix: string)
    ensures forall g :: g in DepFieldsFindings(fields, prefix) ==> StartsWith(g, prefix)
    decreases fields
  {
    if fields != [] {
      EntryUnderPrefix(fields[0], prefix);
      DepFindingsUnderPrefix(fields[1..], prefix);
    }
  }

  lemma FieldHitUnderPrefix(info: seq<Field>, prefix: string, name: string, field: string)
    ensures forall g :: g in FieldHit(info, prefix, name, field) ==> StartsWith(g, prefix)
  {
    var value := Get(info, field, Str(""));
    if value.Str? && IsProtolakeResolved(value.s) {
      var g := Tagged(prefix, name, field, value.s);
      assert g == prefix + (name + " (" + field + ": " + value.s + ")");
      assert g[..|prefix|] == prefix;
    }
  }

  lemma {:induction false} EntryUnderPrefix(entry: Field, prefix: string)
    ensures forall g :: g in EntryFindings(entry, prefix) ==> StartsWith(g, prefix)
    decreases entry
  {
    if entry.value.Obj? {
      var info := entry.value.fields;
      FieldHitUnderPrefix(info, prefix, entry.key, "version");
      FieldHitUnderPrefix(info, prefix, entry.key, "resolved");
      var at := Position(info, "dependencies");
      if at.Some? && info[at.value].value.Obj? {
        var below := prefix + entry.key + "/";
        var children := info[at.value].value.fields;
        assert NestedFindings(info, below) == DepFieldsFindings(children, below);
        DepFindingsUnderPrefix(children, below);
        forall g | g in DepFieldsFindings(children, below) ensures StartsWith(g, prefix) {
          assert g[..|prefix|] == below[..|prefix|];
        }
      }
    }
  }

  /** A `version` or `resolved` value of an entry that is a protolake
      reference is reported under the entry's path, and so is everything
      found below it, under `<path>/`. */
  lemma DepFindingsReport(fields: seq<Field>, i: nat, prefix: string)
    requires i < |fields| && fields[i].value.Obj?
    ensures var info := fields[i].value.fields;
      forall field :: ((field == "version" || field == "resolved") &&
        Get(info, field, Str("")).Str? && IsProtolakeResolved(Get(info, field, Str("")).s)) ==>
        Tagged(prefix, fields[i].key, field, Get(info, field, Str("")).s) in DepFieldsFindings(fields, prefix)
    ensures var info := fields[i].value.fields;
      forall children :: Get(info, "dependencies", Obj([])) == Obj(children) ==>
        forall g :: g in DepFieldsFindings(children, prefix + fields[i].key + "/") ==> g in DepFieldsFindings(fields, prefix)
  {
    DepFieldsFindingsHas(fields, i, prefix);
    var info := fields[i].value.fields;
    var entry := fields[i];
    forall field | (field == "version" || field == "resolved") &&
        Get(info, field, Str("")).Str? && IsProtolakeResolved(Get(info, field, Str("")).s)
      ensures Tagged(prefix, entry.key, field, Get(info, field, Str("")).s) in EntryFindings(entry, prefix)
    {
    }
    forall children | Get(info, "dependencies", Obj([])) == Obj(children)
      ensures forall g :: g in DepFieldsFindings(children, prefix + entry.key + "/") ==> g in EntryFindings(entry, prefix)
    {
      PositionIsLookup(info, "dependencies");
      LookupMissing(info, "dependencies");
      match Position(info, "dependencies")
      case Some(j) =>
        assert info[j].value == Obj(children);
      case None =>
        assert children == [];
    }
  }

  // ---------------------------------------------------------------------
  // The whole check.

  /** What is at `<target>/package-lock.json`: nothing, text that is not
      JSON (with the decoder's message), or a loaded document. */
  datatype LockFile = Missing | Unparsable(error: string) | Document(data: Json)

  /** What `check_lockfile` does: raise, or return `(is_clean, findings)`. */
  datatype Report = Raised | Checked(clean: bool, findings: seq<string>)

  const MissingFinding := "package-lock.json is missing"

  /** `check_lockfile(target_dir, ci_mode)`. A document that is not a
      dict, or whose `packages` is not a dict, fails on `get` or
      `items`; a `dependencies` value that is not a dict is ignored. */
  function CheckReport(lock: LockFile, ciMode: bool): (r: Report)
    ensures r.Checked? ==> (r.clean <==> r.findings == [])
    ensures lock == Missing ==> r.Checked? && r.clean == !ciMode
    ensures lock.Unparsable? ==> r.Checked? && !r.clean && |r.findings| == 1
  {
    match lock
    case Missing => if ciMode then Checked(false, [MissingFinding]) else Checked(true, [])
    case Unparsable(error) => Checked(false, ["package-lock.json is invalid JSON: " + error])
    case Document(data) =>
      if !data.Obj? then Raised
      else
        var packages := Get(data.fields, "packages", Obj([]));
        if !packages.Obj? then Raised
        else
          match PackagesScan(packages.fields)
          case None => Raised
          case Some(found) =>
            var findings := found + DepFindings(Get(data.fields, "dependencies", Obj([])), "");
            Checked(findings == [], findings)
  }

  /** The exit status of `main`: 0 when clean, 1 otherwise, and 1 for an
      exception that escapes. */
  function ExitStatus(r: Report): (status: int)
    ensures status == 0 <==> r.Checked? && r.clean
    ensures status == 0 || status == 1
  {
    if r.Checked? && r.clean then 0 else 1
  }

  /** A lockfile with no `packages` and no `dependencies` is clean, and
      one whose every key and resolved value avoids protolake passes the
      `packages` loop without findings. */
  lemma {:induction false} CleanPackages(fields: seq<Field>)
    requires forall i :: 0 <= i < |fields| ==> !IsProtolakePath(fields[i].key) && ResolvedHit(fields[i].value).None?
    ensures PackagesScan(fields) == Some([])
  {
    if fields != [] {
      var front := fields[..|fields| - 1];
      assert forall i :: 0 <= i < |front| ==> front[i] == fields[i];
      CleanPackages(front);
    }
  }

  /** The guard fails exactly when `check_lockfile` reports something. */
  lemma FailsIffFindings(lock: LockFile, ciMode: bool)
    requires CheckReport(lock, ciMode).Checked?
    ensures ExitStatus(CheckReport(lock, ciMode)) == 1 <==> CheckReport(lock, ciMode).findings != []
  {
  }

  // ---------------------------------------------------------------------
  // The scans as the script runs them, appending to one findings list.

  /** `_check_dependencies_recursive(deps, findings, prefix)`: `findings`
      comes back with this call's findings appended. */
  method CheckDependencies(deps: Json, findings: seq<string>, prefix: string) returns (out: seq<string>)
    ensures out == findings + DepFindings(deps, prefix)
    decreases deps
  {
    out := findings;
    if !deps.Obj? {
      return;
    }
    var entries := deps.fields;
    ghost var done: seq<string> := [];
    for i := 0 to |entries|
      invariant done == DepFieldsFindings(entries[..i], prefix)
      invariant out == findings + done
    {
      var entry := entries[i];
      DepFieldsFindingsStep(entries, i, prefix);
      out := CheckEntry(entry, out, prefix);
      done := done + EntryFindings(entry, prefix);
    }
    assert entries[..|entries|] == entries;
    assert DepFindings(deps, prefix) == done;
  }

  /** The body of `_check_dependencies_recursive`'s loop for one entry. */
  method CheckEntry(entry: Field, findings: seq<string>, prefix: string) returns (out: seq<string>)
    ensures out == findings + EntryFindings(entry, prefix)
    decreases entry
  {
    out := findings;
    var name, info := entry.key, entry.value;
    if !info.Obj? {
      return;
    }
    ghost var below := prefix + name + "/";
    EntryFindingsObj(entry, prefix);
    out := CheckField(info.fields, out, prefix, name, "version");
    out := CheckField(info.fields, out, prefix, name, "resolved");
    ghost var last := out;
    var at := Position(info.fields, "dependencies");
    if at.Some? && info.fields[at.value].value.Obj? {
      var child := info.fields[at.value].value;
      NestedFindingsAt(info.fields, below, at.value);
      out := CheckDependencies(child, out, prefix + name + "/");
    }
    assert out == last + NestedFindings(info.fields, below);
  }

  lemma EntryFindingsObj(entry: Field, prefix: string)
    requires entry.value.Obj?
    ensures EntryFindings(entry, prefix) ==
      FieldHit(entry.value.fields, prefix, entry.key, "version") +
      FieldHit(entry.value.fields, prefix, entry.key, "resolved") +
      NestedFindings(entry.value.fields, prefix + entry.key + "/")
  {
  }

  /** One `info.get(field, '')` test of the loop body. */
  method CheckField(info: seq<Field>, findings: seq<string>, prefix: string, name: string, field: string)
    returns (out: seq<string>)
    ensures out == findings + FieldHit(info, prefix, name, field)
  {
    out := findings;
    var value := Get(info, field, Str(""));
    if value.Str? && IsProtolakeResolved(value.s) {
      out := out + [Tagged(prefix, name, field, value.s)];
    }
  }

  lemma NestedFindingsAt(info: seq<Field>, below: string, j: nat)
    requires Position(info, "dependencies") == Some(j) && j < |info| && info[j].value.Obj?
    ensures NestedFindings(info, below) == DepFindings(info[j].value, below)
  {
  }

  /** `check_lockfile(target_dir, ci_mode)`. */
  method CheckLockfile(lock: LockFile, ciMode: bool) returns (r: Report)
    ensures r == CheckReport(lock, ciMode)
  {
    match lock
    case Missing =>
      return if ciMode then Checked(false, [MissingFinding]) else Checked(true, []);
    case Unparsable(error) =>
      return Checked(false, ["package-lock.json is invalid JSON: " + error]);
    case Document(data) =>
      if !data.Obj? {
        return Raised;
      }
      var packages := Get(data.fields, "packages", Obj([]));
      if !packages.Obj? {
        return Raised;
      }
      var table := packages.fields;
      var findings: seq<string> := [];
      for i := 0 to |table|
        invariant PackagesScan(table[..i]) == Some(findings)
      {
        assert table[..i + 1] == table[..i] + [table[i]];
        PackagesScanSnoc(table[..i], table[i]);
        var key, value := table[i].key, table[i].value;
        if IsProtolakePath(key) {
          if !value.Obj? {
            PackagesScanRaised(table, i + 1);
            return Raised;
          }
          var linkInfo := if Truthy(Get(value.fields, "link", Null)) then " (link: true)" else "";
          findings := findings + [key + linkInfo];
        }
        if value.Obj? {
          var resolved := Get(value.fields, "resolved", Str(""));
          if resolved.Str? && IsProtolakeResolved(resolved.s) {
            var reported := FirstWords(findings);
            if key !in reported {
              findings := findings + [key + " (resolved: " + resolved.s + ")"];
            }
          }
        }
      }
      assert table[..|table|] == table;
      findings := CheckDependencies(Get(data.fields, "dependencies", Obj([])), findings, "");
      r := Checked(|findings| == 0, findings);
  }

  /** Once the loop has raised, it has raised for the whole table. */
  lemma {:induction false} PackagesScanRaised(fields: seq<Field>, n: nat)
    requires n <= |fields| && PackagesScan(fields[..n]).None?
    ensures PackagesScan(fields).None?
    decreases |fields| - n
  {
    if n < |fields| {
      assert fields[..n + 1] == fields[..n] + [fields[n]];
      PackagesScanSnoc(fields[..n], fields[n]);
      PackagesScanRaised(fields, n + 1);
    } else {
      assert fields[..n] == fields;
    }
  }
}
