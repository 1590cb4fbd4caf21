/** The package editor used for workspace installs into a JavaScript
    project: it adds the glob `DefaultGlob` to the `workspaces` of the
    project's `package.json` (list or object form), keeps `protolake/`
    in its `.gitignore`, and copies a package under `protolake/`. The
    target project is a class whose fields are the files the editor
    reads and rewrites. */
module PkgEditor {
  import opened Text
  import opened Json

  const DefaultGlob := "protolake/*"
  const GitignoreEntry := "protolake/"

  /** `package.json` as the editor finds it. */
  datatype PackageFile = Missing | Invalid | Parsed(doc: Json)

  /** What `add_workspace_entry` does: rewrite the file with `doc`, return
      False without writing, or raise because the top level is not an object. */
  datatype AddResult = Written(doc: Json) | Refused | Raised

  // ---------------------------------------------------------------------
  // Workspace entries.

  /** A glob list with `glob` appended unless already listed. */
  function WithGlob(items: seq<Json>, glob: string): (r: seq<Json>)
    ensures Str(glob) in r
    ensures forall j :: j in items ==> j in r
  {
    if Str(glob) in items then items else items + [Str(glob)]
  }

  /** The new `workspaces` value, or `None` when its shape is refused. A
      JSON `null` reads as absent, as `dict.get` returns `None` for it. */
  function AddedWorkspaces(ws: Option<Json>, glob: string): Option<Json> {
    match ws
    case None => Some(Arr([Str(glob)]))
    case Some(Null) => Some(Arr([Str(glob)]))
    case Some(Arr(items)) => Some(Arr(WithGlob(items, glob)))
    case Some(Obj(wf)) =>
      (match Lookup(wf, "packages")
       case None => Some(Obj(Put(wf, "packages", Arr([Str(glob)]))))
       case Some(Null) => Some(Obj(Put(wf, "packages", Arr([Str(glob)]))))
       case Some(Arr(items)) => Some(Obj(Put(wf, "packages", Arr(WithGlob(items, glob)))))
       case Some(_) => None)
    case Some(_) => None
  }

  /** `add_workspace_entry`. */
  function AddWorkspaceEntry(file: PackageFile, glob: string): AddResult {
    match file
    case Missing => Refused
    case Invalid => Refused
    case Parsed(doc) =>
      if !doc.Obj? then Raised
      else match AddedWorkspaces(Lookup(doc.fields, "workspaces"), glob)
        case None => Refused
        case Some(ws) => Written(Obj(Put(doc.fields, "workspaces", ws)))
  }

  /** `check_workspace_entry`; `None` where the script raises. */
  function CheckWorkspaceEntry(file: PackageFile, glob: string): Option<bool> {
    match file
    case Missing => Some(false)
    case Invalid => Some(false)
    case Parsed(doc) =>
      if !doc.Obj? then None
      else match Lookup(doc.fields, "workspaces")
        case Some(Arr(items)) => Some(Str(glob) in items)
        case Some(Obj(wf)) =>
          (match Lookup(wf, "packages")
           case Some(Arr(items)) => Some(Str(glob) in items)
           case _ => Some(false))
        case _ => Some(false)
  }

  /** After a successful add, the check finds the glob. */
  lemma AddThenCheck(file: PackageFile, glob: string)
    requires AddWorkspaceEntry(file, glob).Written?
    ensures CheckWorkspaceEntry(Parsed(AddWorkspaceEntry(file, glob).doc), glob) == Some(true)
  {
    var doc := file.doc;
    var ws := AddedWorkspaces(Lookup(doc.fields, "workspaces"), glob).value;
    PutThenLookup(doc.fields, "workspaces", ws);
    if ws.Obj? {
      var wf := Lookup(doc.fields, "workspaces").value.fields;
      var items := if Lookup(wf, "packages").Some? && Lookup(wf, "packages").value.Arr?
        then Lookup(wf, "packages").value.items else [];
      PutThenLookup(wf, "packages", Arr(WithGlob(items, glob)));
      PutThenLookup(wf, "packages", Arr([Str(glob)]));
    }
  }

  /** The workspaces value an add produces is one the next add keeps. */
  lemma AddedWorkspacesStable(ws: Option<Json>, glob: string)
    requires AddedWorkspaces(ws, glob).Some?
    ensures AddedWorkspaces(Some(AddedWorkspaces(ws, glob).value), glob) == AddedWorkspaces(ws, glob)
  {
    if ws.Some? && ws.value.Obj? {
      var wf := ws.value.fields;
      match Lookup(wf, "packages") {
        case None =>
          PutPackagesStable(wf, glob, Arr([Str(glob)]));
        case Some(Null) =>
          PutPackagesStable(wf, glob, Arr([Str(glob)]));
        case Some(Arr(items)) =>
          PutPackagesStable(wf, glob, Arr(WithGlob(items, glob)));
      }
    }
  }

  /** A `packages` list that holds the glob is kept by the next add. */
  lemma PutPackagesStable(wf: seq<Field>, glob: string, packages: Json)
    requires packages.Arr? && Str(glob) in packages.items
    ensures AddedWorkspaces(Some(Obj(Put(wf, "packages", packages))), glob) == Some(Obj(Put(wf, "packages", packages)))
  {
    PutThenLookup(wf, "packages", packages);
    PutTwice(wf, "packages", packages);
  }

  /** A second add of the same glob rewrites the file unchanged. */
  lemma AddIdempotent(file: PackageFile, glob: string)
    requires AddWorkspaceEntry(file, glob).Written?
    ensures AddWorkspaceEntry(Parsed(AddWorkspaceEntry(file, glob).doc), glob) == AddWorkspaceEntry(file, glob)
  {
    var fields := file.doc.fields;
    var ws := AddedWorkspaces(Lookup(fields, "workspaces"), glob).value;
    PutThenLookup(fields, "workspaces", ws);
    PutTwice(fields, "workspaces", ws);
    AddedWorkspacesStable(Lookup(fields, "workspaces"), glob);
  }

  /** Putting the value a key already holds changes nothing. */
  lemma {:induction false} PutTwice(fields: seq<Field>, key: string, value: Json)
    ensures Put(Put(fields, key, value), key, value) == Put(fields, key, value)
  {
    if fields != [] && fields[0].key != key {
      PutTwice(fields[1..], key, value);
    }
  }

  /** Adding touches nothing but `workspaces`. */
  lemma AddKeepsOtherKeys(file: PackageFile, glob: string, key: string)
    requires AddWorkspaceEntry(file, glob).Written? && key != "workspaces"
    ensures Lookup(AddWorkspaceEntry(file, glob).doc.fields, key) == Lookup(file.doc.fields, key)
  {
    var ws := AddedWorkspaces(Lookup(file.doc.fields, "workspaces"), glob).value;
    PutKeepsOthers(file.doc.fields, "workspaces", ws, key);
  }

  /** A parsed object is refused exactly when `workspaces` is a string,
      number or boolean, or an object whose `packages` is none of absent,
      `null` or a list. */
  lemma AddRefusedIff(fields: seq<Field>, glob: string)
    ensures AddWorkspaceEntry(Parsed(Obj(fields)), glob) == Refused <==>
      match Lookup(fields, "workspaces")
      case Some(Obj(wf)) =>
        Lookup(wf, "packages").Some? && !Lookup(wf, "packages").value.Null? && !Lookup(wf, "packages").value.Arr?
      case Some(ws) => ws.Bool? || ws.Num? || ws.Str?
      case None => false
  {
  }

  // ---------------------------------------------------------------------
  // `.gitignore`.

  /** `ensure_gitignore` as written: the separating newline is decided by
      the last line being non-empty, so text already ending in a newline
      gets one more. */
  function GitignoreAsWritten(existing: Option<string>, entry: string): string {
    var content := if existing.Some? then existing.value else "";
    var lines := SplitLines(content);
    if entry in lines then content
    else content + (if lines != [] && lines[|lines| - 1] != "" then "\n" else "") + entry + "\n"
  }

  /** `ensure_gitignore` as its comment intends: a newline is added only
      when the text does not already end in one. */
  function GitignoreAppend(existing: Option<string>, entry: string): string {
    var content := if existing.Some? then existing.value else "";
    if entry in SplitLines(content) then content
    else content + (if content != "" && content[|content| - 1] != '\n' then "\n" else "") + entry + "\n"
  }

  /** A file holding one line and its newline gets a blank line before
      the entry, where the intended behaviour appends the entry directly. */
  lemma {:induction false} GitignoreBlankLine(line: string, entry: string)
    requires line != "" && line != entry && !HasChar(line, '\n') && !HasChar(entry, '\n')
    ensures GitignoreAsWritten(Some(line + "\n"), entry) == line + "\n" + "\n" + entry + "\n"
    ensures SplitLines(GitignoreAsWritten(Some(line + "\n"), entry)) == [line, "", entry]
    ensures GitignoreAppend(Some(line + "\n"), entry) == line + "\n" + entry + "\n"
  {
    assert [line][1..] == [];
    assert Unlines([line]) == line + "\n";
    SplitLinesUnlines([line]);
    var three := [line, "", entry];
    assert three[1..] == ["", entry];
    assert three[1..][1..] == [entry];
    assert [entry][1..] == [];
    assert Unlines([entry]) == entry + "\n";
    assert Unlines(["", entry]) == "\n" + entry + "\n";
    assert Unlines(three) == line + "\n" + "\n" + entry + "\n";
    assert !HasChar("", '\n');
    assert forall k :: 0 <= k < |three| ==> !HasChar(three[k], '\n');
    SplitLinesUnlines(three);
  }

  /** The lines of any text are free of newlines. */
  lemma SplitLinesFree(s: string)
    ensures forall k :: 0 <= k < |SplitLines(s)| ==> !HasChar(SplitLines(s)[k], '\n')
  {
    SplitPartsFree(s, "\n");
    forall k | 0 <= k < |SplitLines(s)| ensures !HasChar(SplitLines(s)[k], '\n') {
      ContainsCharIffHasChar(SplitLines(s)[k], '\n');
      assert SplitLines(s)[k] == Split(s, "\n")[k];
    }
  }

  /** The appended text is the old lines, then the entry, each ended by a newline. */
  lemma GitignoreAppendUnlines(content: string, entry: string)
    requires entry !in SplitLines(content)
    ensures GitignoreAppend(Some(content), entry) == Unlines(SplitLines(content) + [entry])
  {
    var lines := SplitLines(content);
    var sep := if content != "" && content[|content| - 1] != '\n' then "\n" else "";
    UnlinesSplitLines(content);
    assert Unlines(lines) == content + sep;
    UnlinesSnoc(lines, entry);
    assert GitignoreAppend(Some(content), entry) == content + sep + entry + "\n";
  }

  /** The intended behaviour: the lines afterwards are the lines before,
      plus the entry when it was missing; the old text is kept as a prefix. */
  lemma GitignoreAppendLines(existing: Option<string>, entry: string)
    requires !HasChar(entry, '\n')
    ensures var content := if existing.Some? then existing.value else "";
      var lines := SplitLines(content);
      SplitLines(GitignoreAppend(existing, entry)) == (if entry in lines then lines else lines + [entry])
    ensures var content := if existing.Some? then existing.value else "";
      content <= GitignoreAppend(existing, entry)
  {
    var content := if existing.Some? then existing.value else "";
    assert GitignoreAppend(existing, entry) == GitignoreAppend(Some(content), entry);
    if entry !in SplitLines(content) {
      GitignoreAppendMissing(content, entry);
    }
  }

  lemma GitignoreAppendMissing(content: string, entry: string)
    requires !HasChar(entry, '\n') && entry !in SplitLines(content)
    ensures SplitLines(GitignoreAppend(Some(content), entry)) == SplitLines(content) + [entry]
    ensures content <= GitignoreAppend(Some(content), entry)
  {
    var lines := SplitLines(content);
    GitignoreAppendUnlines(content, entry);
    SplitLinesFree(content);
    var more := lines + [entry];
    forall k | 0 <= k < |more| ensures !HasChar(more[k], '\n') {
      if k < |lines| {
        assert more[k] == lines[k];
      }
    }
    SplitLinesUnlines(more);
  }

  /** Ensuring the entry twice is ensuring it once. */
  lemma GitignoreAppendIdempotent(existing: Option<string>, entry: string)
    requires !HasChar(entry, '\n')
    ensures GitignoreAppend(Some(GitignoreAppend(existing, entry)), entry) == GitignoreAppend(existing, entry)
  {
    GitignoreAppendLines(existing, entry);
    var content := if existing.Some? then existing.value else "";
    var lines := SplitLines(content);
    if entry !in lines {
      assert (lines + [entry])[|lines|] == entry;
    }
  }

  /** The code as written and as intended differ only on text that ends
      in a newline after a non-empty last line. */
  lemma GitignoreAgreesOffNewline(existing: Option<string>, entry: string)
    requires var content := if existing.Some? then existing.value else "";
      content == "" || content[|content| - 1] != '\n'
    ensures GitignoreAsWritten(existing, entry) == GitignoreAppend(existing, entry)
  {
    var content := if existing.Some? then existing.value else "";
    var lines := SplitLines(content);
    if content != "" {
      SplitLinesLastNonEmpty(content);
    } else {
      SplitLinesEmpty();
    }
  }

  /** The directory name a package gets under `protolake/`. */
  function FlatName(packageName: string): (r: string)
    ensures !HasChar(r, '@') && !HasChar(r, '/')
  {
    var r := ReplaceChar(RemoveChar(packageName, '@'), '/', '-');
    assert !HasChar(r, '/') by {
      forall i | 0 <= i < |r| ensures r[i] != '/' { }
    }
    assert !HasChar(r, '@') by {
      var s := RemoveChar(packageName, '@');
      forall i | 0 <= i < |r| ensures r[i] != '@' {
        assert s[i] != '@';
      }
    }
    r
  }

  // ---------------------------------------------------------------------
  // The target project.

  class TargetProject {
    var packageJson: PackageFile
    var gitignore: Option<string>
    /** What each directory under `protolake/` is a copy of. */
    var installed: map<string, string>

    constructor (packageJson: PackageFile, gitignore: Option<string>)
      ensures this.packageJson == packageJson && this.gitignore == gitignore && installed == map[]
    {
      this.packageJson := packageJson;
      this.gitignore := gitignore;
      installed := map[];
    }

    /** `add_workspace_entry` on this project: the file is rewritten only
        when the entry is added; a top-level value that is not an object
        makes `pkg.get` raise before anything is written. */
    method AddWorkspace(glob: string) returns (r: AddResult)
      modifies this
      ensures r == AddWorkspaceEntry(old(packageJson), glob)
      ensures packageJson == if r.Written? then Parsed(r.doc) else old(packageJson)
      ensures gitignore == old(gitignore) && installed == old(installed)
    {
      if !packageJson.Parsed? {
        return Refused;
      }
      if !packageJson.doc.Obj? {
        return Raised;
      }
      var fields := packageJson.doc.fields;
      var ws := Lookup(fields, "workspaces");
      var updated: Json;
      if ws.None? || ws.value.Null? {
        updated := Arr([Str(glob)]);
      } else if ws.value.Arr? {
        var items := ws.value.items;
        if Str(glob) !in items {
          items := items + [Str(glob)];
        }
        updated := Arr(items);
      } else if ws.value.Obj? {
        var wf := ws.value.fields;
        var packages := Lookup(wf, "packages");
        if packages.None? || packages.value.Null? {
          wf := Put(wf, "packages", Arr([Str(glob)]));
        } else if packages.value.Arr? {
          var items := packages.value.items;
          if Str(glob) !in items {
            items := items + [Str(glob)];
          }
          wf := Put(wf, "packages", Arr(items));
        } else {
          return Refused;
        }
        updated := Obj(wf);
      } else {
        return Refused;
      }
      packageJson := Parsed(Obj(Put(fields, "workspaces", updated)));
      r := Written(Obj(Put(fields, "workspaces", updated)));
    }

    /** `ensure_gitignore` on this project, as the code is written. */
    method EnsureGitignore(entry: string)
      modifies this
      ensures gitignore == Some(GitignoreAsWritten(old(gitignore), entry))
      ensures packageJson == old(packageJson) && installed == old(installed)
    {
      var content := if gitignore.Some? then gitignore.value else "";
      var lines := SplitLines(content);
      SplitLinesEmpty();
      if entry in lines {
        assert gitignore.Some?;
        return;
      }
      var separator := "";
      if lines != [] && lines[|lines| - 1] != "" {
        separator := "\n";
      }
      gitignore := Some(content + separator + entry + "\n");
    }

    /** `install_package_to_workspace`: the copy under `protolake/`
        replaces any earlier one and happens before the workspace entry
        is added, so it stays when the add fails or raises. It returns
        True exactly when the entry is written; `Raised` is the exception
        the add lets through. */
    method InstallPackage(pkgDir: string, packageName: string) returns (r: AddResult)
      modifies this
      ensures installed == old(installed)[FlatName(packageName) := pkgDir]
      ensures r == AddWorkspaceEntry(old(packageJson), DefaultGlob)
      ensures r.Written? ==> packageJson == Parsed(r.doc) &&
                             gitignore == Some(GitignoreAsWritten(old(gitignore), GitignoreEntry))
      ensures !r.Written? ==> packageJson == old(packageJson) && gitignore == old(gitignore)
    {
      installed := installed[FlatName(packageName) := pkgDir];
      r := AddWorkspace(DefaultGlob);
      if r.Written? {
        EnsureGitignore(GitignoreEntry);
      }
    }
  }
}
