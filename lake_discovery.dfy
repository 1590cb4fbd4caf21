/** Lake discovery: every `lake.yaml` under a search path becomes a Lake
    message, and refreshing replaces the stored lakes by the ones
    discovered, refreshing each new lake's bundles in turn. The walk is
    given as the files it yields, as for bundles; the bundle walks are a
    map from a lake's directory to what walking it yields (a directory
    missing from the map does not exist). */
module LakeDiscovery {
  import opened Text
  import opened JavaText
  import opened JavaPaths
  import opened Protos
  import LakeUtil
  import PathValidation
  import LakeValidator
  import opened Storage
  import opened BundleDiscovery

  /** A `lake.yaml`: its top-level string entries, and the entries of its
      `versions.bazel_deps` section when both levels are present. */
  datatype LakeDoc = LakeDoc(fields: map<string, string>, bazelDeps: Option<map<string, string>>)

  const KeyLakeName := "name"
  const KeyLakePrefix := "lake_prefix"
  const KeyOrganization := "organization"
  const KeyProtobuf := "protobuf"
  const KeyGrpc := "grpc"
  const KeyRulesProtoGrpc := "rules_proto_grpc"

  /** `getModuleBazelBuilder`: the builder already started, or a fresh one;
      asking for it makes the field present. */
  function ModuleBazelBuilder(current: Option<ModuleBazel>): ModuleBazel {
    if current.Some? then current.value else ModuleBazel("", "", "")
  }

  /** The `versions.bazel_deps` part of `parseLakeConfig`: each key present
      sets its field on the module builder. */
  function ParseModuleBazel(bazelDeps: Option<map<string, string>>): (r: Option<ModuleBazel>)
    ensures r.Some? <==>
      (bazelDeps.Some? && (KeyProtobuf in bazelDeps.value || KeyGrpc in bazelDeps.value || KeyRulesProtoGrpc in bazelDeps.value))
    ensures r.Some? ==> r.value.protobufVersion == GetOrDefault(bazelDeps.value, KeyProtobuf, "")
    ensures r.Some? ==> r.value.grpcVersion == GetOrDefault(bazelDeps.value, KeyGrpc, "")
    ensures r.Some? ==> r.value.rulesProtoGrpcVersion == GetOrDefault(bazelDeps.value, KeyRulesProtoGrpc, "")
  {
    if bazelDeps.None? then None
    else
      var deps := bazelDeps.value;
      var m0: Option<ModuleBazel> := None;
      var m1 := if KeyProtobuf in deps then Some(ModuleBazelBuilder(m0).(protobufVersion := deps[KeyProtobuf])) else m0;
      var m2 := if KeyGrpc in deps then Some(ModuleBazelBuilder(m1).(grpcVersion := deps[KeyGrpc])) else m1;
      if KeyRulesProtoGrpc in deps then Some(ModuleBazelBuilder(m2).(rulesProtoGrpcVersion := deps[KeyRulesProtoGrpc])) else m2
  }

  /** `parseLakeConfig`: the organization only when non-empty, and the
      module versions. */
  function ParseLakeConfig(doc: LakeDoc): (config: LakeConfig)
    ensures config.moduleBazel == ParseModuleBazel(doc.bazelDeps)
    ensures config.languageDefaults.None? && config.validation.None?
  {
    var organization :=
      if KeyOrganization in doc.fields && doc.fields[KeyOrganization] != "" then doc.fields[KeyOrganization] else "";
    LakeConfig(organization, ParseModuleBazel(doc.bazelDeps), None, None)
  }

  /** Setting the organization only when non-empty changes nothing a
      reader of the message can see: an unset string field reads as empty. */
  lemma OrganizationCopied(doc: LakeDoc)
    ensures ParseLakeConfig(doc).organization == GetOrDefault(doc.fields, KeyOrganization, "")
  {
  }

  /** A discovered configuration passes the lake validator exactly when it
      names no module version at all, or names the protobuf and gRPC
      versions with non-blank values. */
  lemma ParsedConfigValidates(doc: LakeDoc)
    ensures LakeValidator.ConfigErrors(Some(ParseLakeConfig(doc))) == [] <==>
      (doc.bazelDeps.None? ||
       (KeyProtobuf !in doc.bazelDeps.value && KeyGrpc !in doc.bazelDeps.value && KeyRulesProtoGrpc !in doc.bazelDeps.value) ||
       (KeyProtobuf in doc.bazelDeps.value && KeyGrpc in doc.bazelDeps.value &&
        !IsBlankJava(doc.bazelDeps.value[KeyProtobuf]) && !IsBlankJava(doc.bazelDeps.value[KeyGrpc])))
  {
    assert IsBlankJava("");
  }

  /** The file parses and names its lake. */
  predicate NamedLake(file: YamlFile<LakeDoc>) {
    file.doc.Some? && KeyLakeName in file.doc.value.fields && file.doc.value.fields[KeyLakeName] != ""
  }

  /** `parseLake`: `None` for a file without a name. */
  function ParseLake(file: YamlFile<LakeDoc>, searchPath: Path): (r: Option<Lake>)
    ensures r.Some? <==> NamedLake(file)
  {
    if !NamedLake(file) then None
    else
      var fields := file.doc.value.fields;
      var name := fields[KeyLakeName];
      var fromYaml := if KeyLakePrefix in fields then Some(fields[KeyLakePrefix]) else None;
      var prefix := ChoosePrefix(fromYaml, PathValidation.CalculateLakePrefix(file.dir, name, searchPath));
      var time := LakeUtil.ToProtoTimestamp(EpochMilli(file.modifiedMillis));
      Some(Lake(LakeUtil.ToResourceName(name), name, "", prefix, Some(time), Some(time), Some(ParseLakeConfig(file.doc.value))))
  }

  /** What a parsed lake holds: its name's id is the YAML name, shown as
      the display name, no description, one time for creation and update,
      and a configuration always present, so the validator's "configuration
      is required" rule never fires for a discovered lake. */
  lemma ParsedLake(file: YamlFile<LakeDoc>, searchPath: Path)
    requires NamedLake(file)
    ensures var name := file.doc.value.fields[KeyLakeName];
      var l := ParseLake(file, searchPath).value;
      LakeUtil.ExtractLakeId(l.name) == name && l.displayName == name && l.description == "" &&
      l.createTime.Some? && l.createTime == l.updateTime &&
      l.config == Some(ParseLakeConfig(file.doc.value)) &&
      LakeValidator.ConfigRequired !in LakeValidator.ConfigErrors(l.config)
  {
    LakeUtil.ExtractLakeIdOfResourceName(file.doc.value.fields[KeyLakeName]);
  }

  /** A lake found where its plain prefix puts it gets that prefix, whether
      the YAML states it or leaves it out, and the prefix then validates. */
  lemma DiscoveredLakePrefixOfLayout(file: YamlFile<LakeDoc>, searchPath: Path, prefix: string)
    requires NamedLake(file)
    requires var name := file.doc.value.fields[KeyLakeName];
      !HasDotNames(searchPath.names) &&
      prefix == Join(Names(prefix), "/") && !HasChar(prefix, '\\') && !HasDotNames(Names(prefix)) &&
      IsName(name) && !HasChar(name, '\\') && !IsDotName(name) &&
      file.dir == PathValidation.ExpectedLakePath(searchPath, prefix, name)
    requires KeyLakePrefix !in file.doc.value.fields || file.doc.value.fields[KeyLakePrefix] in {"", prefix}
    ensures var l := ParseLake(file, searchPath).value;
      l.lakePrefix == prefix &&
      PathValidation.ValidateLakePrefix(l.lakePrefix, file.doc.value.fields[KeyLakeName], file.dir, searchPath)
  {
    PathValidation.LakePrefixOfLayout(searchPath, prefix, file.doc.value.fields[KeyLakeName]);
  }

  function ParseEachLake(files: seq<YamlFile<LakeDoc>>, searchPath: Path): (parsed: seq<Option<Lake>>)
    ensures |parsed| == |files|
    ensures forall i :: 0 <= i < |files| ==> parsed[i] == ParseLake(files[i], searchPath)
  {
    seq(|files|, i requires 0 <= i < |files| => ParseLake(files[i], searchPath))
  }

  /** The lakes parsed from the files in walk order. */
  function ParseAllLakes(files: seq<YamlFile<LakeDoc>>, searchPath: Path): seq<Lake> {
    Found(ParseEachLake(files, searchPath))
  }

  /** A file that fails to parse or names no lake is passed over; a named
      one contributes its lake in its place. */
  lemma SkippedLakeFileIgnored(a: seq<YamlFile<LakeDoc>>, f: YamlFile<LakeDoc>, b: seq<YamlFile<LakeDoc>>, searchPath: Path)
    ensures !NamedLake(f) ==> ParseAllLakes(a + [f] + b, searchPath) == ParseAllLakes(a, searchPath) + ParseAllLakes(b, searchPath)
    ensures NamedLake(f) ==>
      ParseAllLakes(a + [f] + b, searchPath)
      == ParseAllLakes(a, searchPath) + [ParseLake(f, searchPath).value] + ParseAllLakes(b, searchPath)
  {
    var pa, pf, pb := ParseEachLake(a, searchPath), ParseEachLake([f], searchPath), ParseEachLake(b, searchPath);
    var all := ParseEachLake(a + [f] + b, searchPath);
    forall i | 0 <= i < |all| ensures all[i] == (pa + pf + pb)[i] {
      if i < |a| {
        assert (a + [f] + b)[i] == a[i];
      } else if i == |a| {
        assert (a + [f] + b)[i] == f;
      } else {
        assert (a + [f] + b)[i] == b[i - |a| - 1];
      }
    }
    assert all == pa + pf + pb;
    FoundConcat(pa + pf, pb);
    FoundConcat(pa, pf);
    assert pf == [ParseLake(f, searchPath)];
    FoundOne(ParseLake(f, searchPath));
  }

  /** `discoverLakes`: nothing when the search path does not exist
      (`walk` is `None`), otherwise the lakes of the walk's files. */
  method DiscoverLakes(searchPath: Path, walk: Option<seq<YamlFile<LakeDoc>>>) returns (lakes: seq<Lake>)
    ensures walk.None? ==> lakes == []
    ensures walk.Some? ==> lakes == ParseAllLakes(walk.value, searchPath)
  {
    lakes := [];
    if walk.None? {
      return;
    }
    var files := walk.value;
    ghost var parsed := ParseEachLake(files, searchPath);
    for i := 0 to |files|
      invariant lakes == Found(parsed[..i])
    {
      var lake := ParseLake(files[i], searchPath);
      assert parsed[..i + 1] == parsed[..i] + [lake];
      FoundConcat(parsed[..i], [lake]);
      FoundOne(lake);
      if lake.Some? {
        lakes := lakes + [lake.value];
      }
    }
    assert parsed[..|files|] == parsed;
  }

  /** The ids of the lakes, read from their names. */
  function LakeIds(lakes: seq<Lake>): (ids: seq<string>)
    ensures |ids| == |lakes|
    ensures forall i :: 0 <= i < |lakes| ==> ids[i] == LakeUtil.ExtractLakeId(lakes[i].name)
  {
    seq(|lakes|, i requires 0 <= i < |lakes| => LakeUtil.ExtractLakeId(lakes[i].name))
  }

  /** The lakes table after `removeStaleEntries`: only the listed ids stay. */
  function KeepLakes(lakes: map<string, Lake>, names: seq<string>): (r: map<string, Lake>)
    ensures forall id :: id in r <==> id in lakes && id in names
    ensures forall id :: id in r ==> r[id] == lakes[id]
  {
    map id | id in lakes && id in names :: lakes[id]
  }

  /** And the bundles table: the bundles of the removed lakes go with them. */
  function KeepLakeBundles(bundles: map<BundleKey, Bundle>, names: seq<string>): (r: map<BundleKey, Bundle>)
    ensures forall k :: k in r <==> k in bundles && k.lake in names
    ensures forall k :: k in r ==> r[k] == bundles[k]
  {
    map k | k in bundles && k.lake in names :: bundles[k]
  }

  /** The tables while `removeStaleEntries` runs: the listed lakes and
      the stale ones not yet deleted stay, with their bundles. */
  function Remaining(lakes: map<string, Lake>, names: seq<string>, stale: set<string>): (r: map<string, Lake>)
    ensures forall id :: id in r <==> id in lakes && (id in names || id in stale)
    ensures forall id :: id in r ==> r[id] == lakes[id]
  {
    map id | id in lakes && (id in names || id in stale) :: lakes[id]
  }

  function RemainingBundles(bundles: map<BundleKey, Bundle>, names: seq<string>, stale: set<string>): (r: map<BundleKey, Bundle>)
    ensures forall k :: k in r <==> k in bundles && (k.lake in names || k.lake in stale)
    ensures forall k :: k in r ==> r[k] == bundles[k]
  {
    map k | k in bundles && (k.lake in names || k.lake in stale) :: bundles[k]
  }

  /** Deleting one stale lake takes it, and its bundles, out of what
      remains. */
  lemma DeleteStale(lakes: map<string, Lake>, bundles: map<BundleKey, Bundle>, names: seq<string>, stale: set<string>, id: string)
    requires id in stale && id !in names
    ensures Remaining(lakes, names, stale) - {id} == Remaining(lakes, names, stale - {id})
    ensures DropLakeBundles(RemainingBundles(bundles, names, stale), id) == RemainingBundles(bundles, names, stale - {id})
  {
  }

  /** `removeStaleEntries`: delete every stored lake whose id was not
      discovered. */
  method RemoveStaleEntries(store: Store, names: seq<string>)
    requires store.Valid()
    modifies store
    ensures store.Valid()
    ensures store.lakes == KeepLakes(old(store.lakes), names)
    ensures store.bundles == KeepLakeBundles(old(store.bundles), names)
  {
    ghost var lakes0, bundles0 := store.lakes, store.bundles;
    var stale := set id | id in store.lakes && id !in names;
    assert store.lakes == Remaining(lakes0, names, stale);
    assert store.bundles == RemainingBundles(bundles0, names, stale);
    while stale != {}
      invariant store.Valid()
      invariant forall id :: id in stale ==> id !in names
      invariant store.lakes == Remaining(lakes0, names, stale)
      invariant store.bundles == RemainingBundles(bundles0, names, stale)
      decreases stale
    {
      var id :| id in stale;
      DeleteStale(lakes0, bundles0, names, stale, id);
      var _ := store.DeleteLake(id);
      stale := stale - {id};
    }
    assert Remaining(lakes0, names, {}) == KeepLakes(lakes0, names);
    assert RemainingBundles(bundles0, names, {}) == KeepLakeBundles(bundles0, names);
  }

  /** The lakes the lake validator passes. */
  ghost function LakesPassed(basePath: string, disk: LakeValidator.Disk): iset<Lake> {
    iset l | LakeAccepted(basePath, disk, l)
  }

  /** One turn of the refresh loop on the lakes table: the lake is deleted
      and created again if it passes; the delete always frees its id. */
  ghost function LakeStep(lakes: map<string, Lake>, passed: iset<Lake>, lake: Lake): map<string, Lake> {
    var id := LakeUtil.ExtractLakeId(lake.name);
    if lake in passed then (lakes - {id})[id := lake] else lakes - {id}
  }

  /** The lakes table after the refresh loop over `ls`. */
  ghost function LakesAfter(lakes: map<string, Lake>, passed: iset<Lake>, ls: seq<Lake>): map<string, Lake>
    decreases |ls|
  {
    if ls == [] then lakes else LakesAfter(LakeStep(lakes, passed, ls[0]), passed, ls[1..])
  }

  /** The ids of the `passed` lakes, in order. */
  ghost function PassedLakeIds(passed: iset<Lake>, ls: seq<Lake>): (ids: seq<string>)
    ensures |ids| <= |ls|
  {
    if ls == [] then []
    else
      var head := if ls[0] in passed then [LakeUtil.ExtractLakeId(ls[0].name)] else [];
      head + PassedLakeIds(passed, ls[1..])
  }

  /** What walking a lake's directory yields, `None` if it does not exist. */
  function BundleWalk(bundleWalks: map<Path, seq<YamlFile<BundleDoc>>>, lake: Lake, basePath: string): Option<seq<YamlFile<BundleDoc>>> {
    var dir := LakeUtil.GetLocalPath(lake, basePath);
    if dir in bundleWalks then Some(bundleWalks[dir]) else None
  }

  /** The bundles discovered for a lake. */
  function DiscoveredBundles(bundleWalks: map<Path, seq<YamlFile<BundleDoc>>>, lake: Lake, basePath: string): seq<Bundle> {
    var walk := BundleWalk(bundleWalks, lake, basePath);
    if walk.None? then [] else ParseAll(walk.value, LakeUtil.GetLocalPath(lake, basePath), Some(lake))
  }

  datatype Tables = Tables(lakes: map<string, Lake>, bundles: map<BundleKey, Bundle>)

  /** One turn of the refresh loop on both tables: deleting the lake drops
      its bundles; a lake created again has its bundles refreshed against
      the new lakes table. */
  ghost function TablesStep(t: Tables, passed: iset<Lake>, basePath: string, bundleWalks: map<Path, seq<YamlFile<BundleDoc>>>, lake: Lake): Tables {
    var id := LakeUtil.ExtractLakeId(lake.name);
    var lakes := LakeStep(t.lakes, passed, lake);
    var dropped := DropLakeBundles(t.bundles, id);
    if lake in passed then
      var bs := DiscoveredBundles(bundleWalks, lake, basePath);
      Tables(lakes, Refreshed(KeepListed(dropped, id, Ids(bs)), Passed(lakes, basePath), id, bs))
    else Tables(lakes, dropped)
  }

  ghost function TablesAfter(t: Tables, passed: iset<Lake>, basePath: string, bundleWalks: map<Path, seq<YamlFile<BundleDoc>>>, ls: seq<Lake>): Tables
    decreases |ls|
  {
    if ls == [] then t else TablesAfter(TablesStep(t, passed, basePath, bundleWalks, ls[0]), passed, basePath, bundleWalks, ls[1..])
  }

  /** One turn of `refreshLakes`: delete the stored lake if there is one,
      create the discovered one, and on success refresh its bundles. */
  method RefreshLake(store: Store, lake: Lake, bundleWalks: map<Path, seq<YamlFile<BundleDoc>>>) returns (created: bool)
    requires store.Valid()
    modifies store
    ensures store.Valid()
    ensures created == (lake in LakesPassed(store.basePath, store.disk))
    ensures Tables(store.lakes, store.bundles)
         == TablesStep(Tables(old(store.lakes), old(store.bundles)), LakesPassed(store.basePath, store.disk), store.basePath, bundleWalks, lake)
  {
    var id := LakeUtil.ExtractLakeId(lake.name);
    var existing := store.GetLake(id);
    if existing.Some? {
      var _ := store.DeleteLake(id);
    } else {
      RemoveAbsent(store.lakes, id);
      assert DropLakeBundles(store.bundles, id) == store.bundles;
    }
    assert lake in LakesPassed(store.basePath, store.disk) <==> LakeAccepted(store.basePath, store.disk, lake);
    var r := store.CreateLake(lake);
    if r.Err? {
      return false;
    }
    created := true;
    var _ := RefreshBundlesForLake(store, lake, BundleWalk(bundleWalks, lake, store.basePath));
  }

  /** `refreshLakes`: discover, remove the stale lakes, then refresh each
      discovered lake, counting the ones created. */
  method RefreshLakes(store: Store, searchPath: Path, lakeWalk: Option<seq<YamlFile<LakeDoc>>>,
                      bundleWalks: map<Path, seq<YamlFile<BundleDoc>>>) returns (count: nat)
    requires store.Valid()
    modifies store
    ensures store.Valid()
    ensures var ls := if lakeWalk.None? then [] else ParseAllLakes(lakeWalk.value, searchPath);
      var passed := LakesPassed(store.basePath, store.disk);
      var start := Tables(KeepLakes(old(store.lakes), LakeIds(ls)), KeepLakeBundles(old(store.bundles), LakeIds(ls)));
      Tables(store.lakes, store.bundles) == TablesAfter(start, passed, store.basePath, bundleWalks, ls) &&
      store.lakes == LakesAfter(start.lakes, passed, ls) &&
      count == |PassedLakeIds(passed, ls)|
  {
    var ls := DiscoverLakes(searchPath, lakeWalk);
    RemoveStaleEntries(store, LakeIds(ls));
    ghost var start := Tables(store.lakes, store.bundles);
    ghost var passed := LakesPassed(store.basePath, store.disk);
    count := 0;
    for i := 0 to |ls|
      invariant store.Valid()
      invariant TablesAfter(Tables(store.lakes, store.bundles), passed, store.basePath, bundleWalks, ls[i..])
             == TablesAfter(start, passed, store.basePath, bundleWalks, ls)
      invariant LakesAfter(store.lakes, passed, ls[i..]) == LakesAfter(start.lakes, passed, ls)
      invariant count + |PassedLakeIds(passed, ls[i..])| == |PassedLakeIds(passed, ls)|
    {
      assert ls[i..][1..] == ls[i + 1..];
      ghost var before := store.lakes;
      var created := RefreshLake(store, ls[i], bundleWalks);
      assert store.lakes == LakeStep(before, passed, ls[i]);
      if created {
        count := count + 1;
      }
    }
  }

  predicate DistinctLakeIds(ls: seq<Lake>) {
    forall i, j :: 0 <= i < j < |ls| ==> LakeIds(ls)[i] != LakeIds(ls)[j]
  }

  lemma LakeIdsTail(ls: seq<Lake>)
    requires ls != []
    ensures LakeIds(ls[1..]) == LakeIds(ls)[1..]
  {
  }

  lemma TailDistinct(ls: seq<Lake>)
    requires ls != [] && DistinctLakeIds(ls)
    ensures DistinctLakeIds(ls[1..]) && LakeIds(ls)[0] !in LakeIds(ls[1..])
  {
    var rest := ls[1..];
    LakeIdsTail(ls);
    forall i, j | 0 <= i < j < |rest| ensures LakeIds(rest)[i] != LakeIds(rest)[j] {
      assert LakeIds(rest)[i] == LakeIds(ls)[i + 1] && LakeIds(rest)[j] == LakeIds(ls)[j + 1];
    }
    forall j | 0 <= j < |rest| ensures LakeIds(rest)[j] != LakeIds(ls)[0] {
      assert LakeIds(rest)[j] == LakeIds(ls)[j + 1];
    }
  }

  /** With distinct ids, the refresh loop leaves every other lake alone and
      holds each discovered lake exactly when it passes. */
  lemma {:induction false} LakesOutcome(start: map<string, Lake>, passed: iset<Lake>, ls: seq<Lake>)
    requires DistinctLakeIds(ls)
    ensures var final := LakesAfter(start, passed, ls);
      (forall id :: id !in LakeIds(ls) ==> (id in final <==> id in start) && (id in start ==> final[id] == start[id])) &&
      (forall i :: 0 <= i < |ls| ==>
         (LakeIds(ls)[i] in final <==> ls[i] in passed) && (ls[i] in passed ==> final[LakeIds(ls)[i]] == ls[i]))
    decreases |ls|
  {
    if ls != [] {
      TailDistinct(ls);
      LakeIdsTail(ls);
      LakesOutcome(LakeStep(start, passed, ls[0]), passed, ls[1..]);
    }
  }

  /** The id of a passed lake is among the passed ids. */
  lemma {:induction false} PassedLakeIdsHas(passed: iset<Lake>, ls: seq<Lake>, i: nat)
    requires i < |ls| && ls[i] in passed
    ensures LakeIds(ls)[i] in PassedLakeIds(passed, ls)
    decreases |ls|
  {
    var head := if ls[0] in passed then [LakeUtil.ExtractLakeId(ls[0].name)] else [];
    var rest := ls[1..];
    assert PassedLakeIds(passed, ls) == head + PassedLakeIds(passed, rest);
    if i == 0 {
      assert head == [LakeIds(ls)[0]];
    } else {
      LakeIdsTail(ls);
      assert rest[i - 1] == ls[i] && LakeIds(rest)[i - 1] == LakeIds(ls)[i];
      PassedLakeIdsHas(passed, rest, i - 1);
    }
  }

  /** Each of the passed ids is the id of a passed lake. */
  lemma {:induction false} PassedLakeIdsFrom(passed: iset<Lake>, ls: seq<Lake>, id: string)
    requires id in PassedLakeIds(passed, ls)
    ensures exists i :: 0 <= i < |ls| && LakeIds(ls)[i] == id && ls[i] in passed
    decreases |ls|
  {
    var rest := ls[1..];
    LakeIdsTail(ls);
    if ls[0] in passed && id == LakeIds(ls)[0] {
    } else {
      PassedLakeIdsFrom(passed, rest, id);
      var i :| 0 <= i < |rest| && LakeIds(rest)[i] == id && rest[i] in passed;
      assert LakeIds(ls)[i + 1] == id && ls[i + 1] == rest[i];
    }
  }

  /** After a refresh the store holds exactly the discovered lakes that
      pass, each one as discovered: stale lakes are gone, and the count
      is the number of lakes stored. */
  lemma RefreshedLakes(oldLakes: map<string, Lake>, passed: iset<Lake>, ls: seq<Lake>)
    requires DistinctLakeIds(ls)
    ensures var final := LakesAfter(KeepLakes(oldLakes, LakeIds(ls)), passed, ls);
      (forall id :: id in final <==> id in PassedLakeIds(passed, ls)) &&
      (forall i :: 0 <= i < |ls| && ls[i] in passed ==> LakeIds(ls)[i] in final && final[LakeIds(ls)[i]] == ls[i]) &&
      |final| == |PassedLakeIds(passed, ls)|
  {
    var start := KeepLakes(oldLakes, LakeIds(ls));
    var final := LakesAfter(start, passed, ls);
    var ids := PassedLakeIds(passed, ls);
    LakesOutcome(start, passed, ls);
    forall id ensures id in final <==> id in ids {
      if id in LakeIds(ls) {
        var i :| 0 <= i < |ls| && LakeIds(ls)[i] == id;
        if id in ids {
          PassedLakeIdsFrom(passed, ls, id);
          var j :| 0 <= j < |ls| && LakeIds(ls)[j] == id && ls[j] in passed;
          assert !(i < j) && !(j < i);
        } else if ls[i] in passed {
          PassedLakeIdsHas(passed, ls, i);
        }
      } else {
        assert id !in start;
        if id in ids {
          PassedLakeIdsFrom(passed, ls, id);
        }
      }
    }
    PassedLakeIdsDistinct(passed, ls);
    assert final.Keys == set id | id in ids;
    DistinctCard(ids);
  }

  /** The passed ids of lakes with distinct ids are distinct. */
  lemma {:induction false} PassedLakeIdsDistinct(passed: iset<Lake>, ls: seq<Lake>)
    requires DistinctLakeIds(ls)
    ensures forall i, j :: 0 <= i < j < |PassedLakeIds(passed, ls)| ==> PassedLakeIds(passed, ls)[i] != PassedLakeIds(passed, ls)[j]
    decreases |ls|
  {
    if ls != [] {
      TailDistinct(ls);
      LakeIdsTail(ls);
      PassedLakeIdsDistinct(passed, ls[1..]);
      var rest := PassedLakeIds(passed, ls[1..]);
      if ls[0] in passed {
        var id0 := LakeIds(ls)[0];
        assert PassedLakeIds(passed, ls) == [id0] + rest;
        if id0 in rest {
          PassedLakeIdsFrom(passed, ls[1..], id0);
        }
      } else {
        assert PassedLakeIds(passed, ls) == rest;
      }
    }
  }

  /** A sequence without repeats has as many members as elements. */
  lemma {:induction false} DistinctCard(ids: seq<string>)
    requires forall i, j :: 0 <= i < j < |ids| ==> ids[i] != ids[j]
    ensures |set id | id in ids| == |ids|
    decreases |ids|
  {
    if ids != [] {
      var rest := ids[1..];
      forall i, j | 0 <= i < j < |rest| ensures rest[i] != rest[j] {
        assert rest[i] == ids[i + 1] && rest[j] == ids[j + 1];
      }
      DistinctCard(rest);
      assert ids[0] !in rest by {
        forall j | 0 <= j < |rest| ensures rest[j] != ids[0] {
          assert rest[j] == ids[j + 1];
        }
      }
      assert (set id | id in ids) == {ids[0]} + (set id | id in rest);
    }
  }
}
