/** `create_package_json` of the npm bundler: the package manifest for
    the dual CommonJS/ESM layout and for the single-format layouts. */
module NpmPackageJson {
  import opened Text
  import opened Json

  datatype ModuleFormat = CommonJs | Esm | Dual

  // ---------------------------------------------------------------------
  // package.json

  function Dependencies(): Json {
    Obj([
    Field("google-protobuf", Str("^3.21.2")),
    Field("@grpc/grpc-js", Str("^1.9.0")),
    Field("grpc-web", Str("^1.5.0"))])
  }

  /** The entry points of one export path, `dir` being `./`, `./node/` or `./web/`. */
  function ExportEntry(dir: string): Json {
    Obj([Field("import", Str(dir + "index.mjs")),
         Field("require", Str(dir + "index.cjs")),
         Field("types", Str(dir + "index.d.ts"))])
  }

  function DualExports(): Json {
    Obj([
    Field(".", ExportEntry("./")),
    Field("./node", ExportEntry("./node/")),
    Field("./web", ExportEntry("./web/"))])
  }

  function DualFiles(): Json {
    Arr([Str("**/*.js"), Str("**/*.cjs"), Str("**/*.mjs"), Str("**/*.d.ts"), Str("**/*.proto")])
  }

  function BaseFields(name: string, version: string): seq<Field> {
    [Field("name", Str(name)),
     Field("version", Str(version)),
     Field("description", Str("Proto definitions for " + name)),
     Field("dependencies", Dependencies())]
  }

  function DualFields(): seq<Field> {
    [
    Field("main", Str("./index.cjs")),
    Field("module", Str("./index.mjs")),
    Field("types", Str("./index.d.ts")),
    Field("exports", DualExports()),
    Field("files", DualFiles())]
  }

  /** `create_package_json`; the TypeScript flag is accepted and unused. */
  function PackageJson(name: string, version: string, hasTypescript: bool, format: ModuleFormat): seq<Field> {
    var base := BaseFields(name, version);
    if format == Dual then Update(base, DualFields())
    else
      var single := Put(Put(base, "main", Str("./index.js")), "types", Str("./index.d.ts"));
      if format == Esm then Put(single, "type", Str("module")) else single
  }

  /** The dual layout is the base object followed by its five entries. */
  lemma DualLayout(name: string, version: string, hasTypescript: bool)
    ensures PackageJson(name, version, hasTypescript, Dual) == BaseFields(name, version) + DualFields()
  {
    var base := BaseFields(name, version);
    assert Keys(base) == ["name", "version", "description", "dependencies"];
    assert Keys(DualFields()) == ["main", "module", "types", "exports", "files"];
    UpdateFresh(base, DualFields());
  }

  /** Past the base entries, the dual layout reads as its five entries. */
  lemma DualEntry(name: string, version: string, hasTypescript: bool, key: string)
    requires key !in ["name", "version", "description", "dependencies"]
    ensures Lookup(PackageJson(name, version, hasTypescript, Dual), key) == Lookup(DualFields(), key)
  {
    DualLayout(name, version, hasTypescript);
    LookupAppend(BaseFields(name, version), DualFields(), key);
  }

  /** The dual entries: CommonJS, ESM and type entry points at the root
      and exactly the three export paths `.`, `./node`, `./web`. */
  lemma DualEntries()
    ensures Lookup(DualFields(), "main") == Some(Str("./index.cjs"))
    ensures Lookup(DualFields(), "module") == Some(Str("./index.mjs"))
    ensures Lookup(DualFields(), "types") == Some(Str("./index.d.ts"))
    ensures Lookup(DualFields(), "exports") == Some(DualExports())
    ensures Lookup(DualFields(), "type") == None
    ensures Keys(DualExports().fields) == [".", "./node", "./web"]
  {
    LookupAt(DualFields(), 0, "main");
    LookupAt(DualFields(), 1, "module");
    LookupAt(DualFields(), 2, "types");
    LookupAt(DualFields(), 3, "exports");
  }

  lemma BaseKeys(name: string, version: string)
    ensures Keys(BaseFields(name, version)) == ["name", "version", "description", "dependencies"]
  {
  }

  /** The single-format object: the base object with `main` and `types`
      put into it, and `type` too for ESM. */
  function SingleBase(name: string, version: string): seq<Field> {
    Put(Put(BaseFields(name, version), "main", Str("./index.js")), "types", Str("./index.d.ts"))
  }

  /** A key other than `main`, `types` and `type` reads in a single-format
      object as in the base object. */
  lemma SingleKeepsBase(name: string, version: string, hasTypescript: bool, format: ModuleFormat, key: string)
    requires format != Dual && key != "main" && key != "types" && key != "type"
    ensures Lookup(PackageJson(name, version, hasTypescript, format), key) == Lookup(BaseFields(name, version), key)
  {
    var base := BaseFields(name, version);
    var b1 := Put(base, "main", Str("./index.js"));
    PutKeepsOthers(base, "main", Str("./index.js"), key);
    PutKeepsOthers(b1, "types", Str("./index.d.ts"), key);
    if format == Esm {
      PutKeepsOthers(SingleBase(name, version), "type", Str("module"), key);
    }
  }

  /** The value the base object holds for name, version and dependencies. */
  function BaseValue(name: string, version: string, key: string): Json {
    if key == "name" then Str(name) else if key == "version" then Str(version) else Dependencies()
  }

  lemma BaseLookup(name: string, version: string, key: string)
    requires key == "name" || key == "version" || key == "dependencies"
    ensures Lookup(BaseFields(name, version), key) == Some(BaseValue(name, version, key))
  {
    var base := BaseFields(name, version);
    if key == "name" {
      LookupAt(base, 0, key);
    } else if key == "version" {
      LookupAt(base, 1, key);
    } else {
      LookupAt(base, 3, key);
    }
  }

  /** The base entries survive in every format: name, version and the
      three fixed dependencies. */
  lemma PackageJsonBase(name: string, version: string, hasTypescript: bool, format: ModuleFormat, key: string)
    requires key == "name" || key == "version" || key == "dependencies"
    ensures Lookup(PackageJson(name, version, hasTypescript, format), key) == Some(BaseValue(name, version, key))
  {
    BaseLookup(name, version, key);
    LookupMissing(BaseFields(name, version), key);
    if format == Dual {
      DualLayout(name, version, hasTypescript);
      LookupAppend(BaseFields(name, version), DualFields(), key);
    } else {
      SingleKeepsBase(name, version, hasTypescript, format, key);
    }
  }

  /** The single-format entry points: `./index.js` and `./index.d.ts`. */
  lemma SingleEntryPoints(name: string, version: string, hasTypescript: bool, format: ModuleFormat)
    requires format != Dual
    ensures Lookup(PackageJson(name, version, hasTypescript, format), "main") == Some(Str("./index.js"))
    ensures Lookup(PackageJson(name, version, hasTypescript, format), "types") == Some(Str("./index.d.ts"))
  {
    var base := BaseFields(name, version);
    var b1 := Put(base, "main", Str("./index.js"));
    var single := SingleBase(name, version);
    PutThenLookup(base, "main", Str("./index.js"));
    PutKeepsOthers(b1, "types", Str("./index.d.ts"), "main");
    PutThenLookup(b1, "types", Str("./index.d.ts"));
    if format == Esm {
      PutKeepsOthers(single, "type", Str("module"), "main");
      PutKeepsOthers(single, "type", Str("module"), "types");
    }
  }

  /** `"type": "module"` is present exactly in the ESM layout. */
  lemma SingleModuleType(name: string, version: string, hasTypescript: bool, format: ModuleFormat)
    requires format != Dual
    ensures format == Esm ==> Lookup(PackageJson(name, version, hasTypescript, format), "type") == Some(Str("module"))
    ensures format == CommonJs ==> Lookup(PackageJson(name, version, hasTypescript, format), "type") == None
  {
    var base := BaseFields(name, version);
    var b1 := Put(base, "main", Str("./index.js"));
    BaseKeys(name, version);
    if format == Esm {
      PutThenLookup(SingleBase(name, version), "type", Str("module"));
    } else {
      LookupMissing(base, "type");
      PutKeepsOthers(base, "main", Str("./index.js"), "type");
      PutKeepsOthers(b1, "types", Str("./index.d.ts"), "type");
    }
  }

  /** The single-format layouts carry no `module` entry and no `exports` map. */
  lemma SingleNoDualEntries(name: string, version: string, hasTypescript: bool, format: ModuleFormat)
    requires format != Dual
    ensures Lookup(PackageJson(name, version, hasTypescript, format), "module") == None
    ensures Lookup(PackageJson(name, version, hasTypescript, format), "exports") == None
  {
    BaseKeys(name, version);
    LookupMissing(BaseFields(name, version), "module");
    LookupMissing(BaseFields(name, version), "exports");
    SingleKeepsBase(name, version, hasTypescript, format, "module");
    SingleKeepsBase(name, version, hasTypescript, format, "exports");
  }
}
