/** Bundle discovery: every `bundle.yaml` under a search path becomes a
    Bundle message, its prefix taken from the YAML or else from where the
    file lies; refreshing a lake replaces its stored bundles by the ones
    discovered. The directory walk is given as the sequence of files it
    yields, in walk order, each with its parsed YAML (`None` when the file
    cannot be read or parsed) and its modification time. */
module BundleDiscovery {
  import opened Text
  import opened JavaText
  import opened JavaPaths
  import opened Protos
  import LakeUtil
  import BundleUtil
  import PathValidation
  import opened Storage

  /** A YAML file the walk found: the directory holding it, its content,
      and `lastModified` in milliseconds. */
  datatype YamlFile<D> = YamlFile(dir: Path, doc: Option<D>, modifiedMillis: int)

  /** A `bundle.yaml`: the string entries of its `bundle` section, if it
      has one, and its `config` section as the message it parses to. */
  datatype BundleDoc = BundleDoc(bundle: Option<map<string, string>>, config: BundleConfig)

  const KeyName := "name"
  const KeyBundlePrefix := "bundle_prefix"
  const KeyPackagePrefix := "package_prefix"
  const KeyDisplayName := "display_name"
  const KeyDescription := "description"
  const KeyVersion := "version"
  const DefaultVersion := "1.0.0"

  /** `Instant.ofEpochMilli`: floor division into seconds and a
      non-negative millisecond remainder in nanoseconds. */
  function EpochMilli(millis: int): LakeUtil.Instant {
    LakeUtil.Instant(millis / 1000, (millis % 1000) * 1000000)
  }

  /** Every `long` millisecond count is a valid instant, and the instant
      gives the count back. */
  lemma EpochMilliValid(millis: int)
    requires -0x8000_0000_0000_0000 <= millis < 0x8000_0000_0000_0000
    ensures LakeUtil.ValidInstant(EpochMilli(millis))
    ensures EpochMilli(millis).epochSecond * 1000 + EpochMilli(millis).nano / 1000000 == millis
  {
  }

  /** `map.getOrDefault`. */
  function GetOrDefault(m: map<string, string>, key: string, default: string): (r: string)
    ensures key in m ==> r == m[key]
    ensures key !in m ==> r == default
  {
    if key in m then m[key] else default
  }

  /** `calculateBundlePrefix`: the path from the search root to the
      bundle's directory without a trailing `/id`, dots for slashes; `""`
      for a bundle right under the root or where relativising throws. */
  function CalculateBundlePrefix(bundleDir: Path, searchPath: Path, bundleId: string): string {
    match Relativize(searchPath, bundleDir)
    case None => ""
    case Some(rel) =>
      var pathStr := ReplaceChar(ToString(rel), '\\', '/');
      if EndsWith(pathStr, "/" + bundleId) then ReplaceChar(pathStr[..|pathStr| - |bundleId| - 1], '/', '.')
      else if pathStr == bundleId then ""
      else ReplaceChar(pathStr, '/', '.')
  }

  lemma NoBackslashLeft(s: string)
    ensures !HasChar(ReplaceChar(s, '\\', '/'), '\\')
  {
  }

  /** Discovery computes the same prefix as the path utility, with the
      search root in place of the lake. */
  lemma CalculatedPrefixAgrees(bundleDir: Path, searchPath: Path, bundleId: string)
    ensures CalculateBundlePrefix(bundleDir, searchPath, bundleId)
         == PathValidation.CalculateBundlePrefix(bundleDir, bundleId, searchPath)
  {
    match Relativize(searchPath, bundleDir)
    case None =>
    case Some(rel) =>
      var pathStr := PathValidation.RelativeText(rel);
      NoBackslashLeft(ToString(rel));
      var stripped := PathValidation.StripLastName(pathStr, bundleId);
      assert !HasChar(stripped, '\\') by {
        if EndsWith(pathStr, "/" + bundleId) {
          var cut := |pathStr| - |bundleId| - 1;
          assert forall i :: 0 <= i < cut ==> stripped[i] == pathStr[i];
        }
      }
      ReplaceCharAbsent(stripped, '\\', '/');
  }

  /** A bundle laid out below the search root by its plain prefix gets
      that prefix back. */
  lemma CalculatedPrefixOfLayout(searchPath: Path, prefix: string, id: string)
    requires !HasDotNames(searchPath.names)
    requires BundleUtil.PlainPackage(prefix) && BundleUtil.PlainId(id)
    ensures CalculateBundlePrefix(BundleUtil.CalculateBundlePathFrom(searchPath, prefix, id), searchPath, id) == prefix
  {
    CalculatedPrefixAgrees(BundleUtil.CalculateBundlePathFrom(searchPath, prefix, id), searchPath, id);
    PathValidation.BundlePrefixOfLayout(searchPath, prefix, id);
  }

  /** The YAML's prefix: `bundle_prefix`, or else `package_prefix`. */
  function YamlPrefix(section: map<string, string>): (r: Option<string>)
    ensures KeyBundlePrefix in section ==> r == Some(section[KeyBundlePrefix])
    ensures KeyBundlePrefix !in section ==> (r.Some? <==> KeyPackagePrefix in section)
    ensures KeyBundlePrefix !in section && r.Some? ==> r.value == section[KeyPackagePrefix]
  {
    if KeyBundlePrefix in section then Some(section[KeyBundlePrefix])
    else if KeyPackagePrefix in section then Some(section[KeyPackagePrefix])
    else None
  }

  /** A non-empty YAML prefix wins, even when the layout suggests another;
      otherwise the layout's prefix is used. */
  function ChoosePrefix(fromYaml: Option<string>, expected: string): (prefix: string)
    ensures fromYaml.Some? && fromYaml.value != "" ==> prefix == fromYaml.value
    ensures fromYaml.None? || fromYaml.value == "" ==> prefix == expected
  {
    if fromYaml.None? || fromYaml.value == "" then expected else fromYaml.value
  }

  /** `lakes/{lake}/bundles/{id}` with a lake, else the bare id. */
  function BundleResourceName(lake: Option<Lake>, bundleId: string): string {
    match lake
    case Some(l) => BundleUtil.ToResourceName(LakeUtil.ExtractLakeId(l.name), bundleId)
    case None => bundleId
  }

  /** The file parses and names its bundle. */
  predicate Named(file: YamlFile<BundleDoc>) {
    file.doc.Some? && file.doc.value.bundle.Some? &&
    KeyName in file.doc.value.bundle.value && file.doc.value.bundle.value[KeyName] != ""
  }

  /** `parseBundle`: `None` for a file without a `bundle` section or a
      name. */
  function ParseBundle(file: YamlFile<BundleDoc>, searchPath: Path, lake: Option<Lake>): (r: Option<Bundle>)
    ensures r.Some? <==> Named(file)
  {
    if !Named(file) then None
    else
      var section := file.doc.value.bundle.value;
      var id := section[KeyName];
      var prefix := ChoosePrefix(YamlPrefix(section), CalculateBundlePrefix(file.dir, searchPath, id));
      var time := LakeUtil.ToProtoTimestamp(EpochMilli(file.modifiedMillis));
      Some(Bundle(
        BundleResourceName(lake, id),
        GetOrDefault(section, KeyDisplayName, id),
        GetOrDefault(section, KeyDescription, ""),
        prefix,
        GetOrDefault(section, KeyVersion, DefaultVersion),
        Some(time), Some(time),
        Some(file.doc.value.config)))
  }

  /** What a parsed bundle holds: the lake id from its name (and, unless
      the lake is called `bundles` or the id holds `/bundles/`, the id
      too), the prefix chosen, the defaults, one time for creation and
      update, and the config always present. */
  lemma ParsedBundle(file: YamlFile<BundleDoc>, searchPath: Path, lakeId: string, lake: Lake)
    requires Named(file) && LakeUtil.ExtractLakeId(lake.name) == lakeId && !HasChar(lakeId, '/')
    ensures var section := file.doc.value.bundle.value;
      var id := section[KeyName];
      var b := ParseBundle(file, searchPath, Some(lake)).value;
      BundleUtil.ExtractLakeIdFromBundle(b.name) == lakeId &&
      (lakeId != "bundles" && !Contains(id, BundleUtil.BundlesSep) ==>
         BundleUtil.ExtractBundleIdAsWritten(b.name) == id && KeyOf(b) == BundleKey(lakeId, id)) &&
      b.displayName == (if KeyDisplayName in section then section[KeyDisplayName] else id) &&
      b.description == (if KeyDescription in section then section[KeyDescription] else "") &&
      b.version == (if KeyVersion in section then section[KeyVersion] else DefaultVersion) &&
      b.bundlePrefix == ChoosePrefix(YamlPrefix(section), CalculateBundlePrefix(file.dir, searchPath, id)) &&
      b.createTime.Some? && b.createTime == b.updateTime && b.config == Some(file.doc.value.config)
  {
    var id := file.doc.value.bundle.value[KeyName];
    if lakeId != "bundles" && !Contains(id, BundleUtil.BundlesSep) {
      BundleUtil.BundleIdRoundTripAsWritten(lakeId, id);
    }
    BundleUtil.LakeIdRoundTrip(lakeId, id);
  }

  /** A bundle found where its plain prefix puts it gets that prefix,
      whether the YAML states it or leaves it out. */
  lemma DiscoveredPrefixOfLayout(file: YamlFile<BundleDoc>, searchPath: Path, lake: Option<Lake>, prefix: string)
    requires Named(file)
    requires var id := file.doc.value.bundle.value[KeyName];
      !HasDotNames(searchPath.names) && BundleUtil.PlainPackage(prefix) && BundleUtil.PlainId(id) &&
      file.dir == BundleUtil.CalculateBundlePathFrom(searchPath, prefix, id)
    requires var y := YamlPrefix(file.doc.value.bundle.value); y.None? || y.value == "" || y.value == prefix
    ensures ParseBundle(file, searchPath, lake).value.bundlePrefix == prefix
  {
    CalculatedPrefixOfLayout(searchPath, prefix, file.doc.value.bundle.value[KeyName]);
  }

  /** What the walk's files parse to, file by file. */
  function ParseEach(files: seq<YamlFile<BundleDoc>>, searchPath: Path, lake: Option<Lake>): (parsed: seq<Option<Bundle>>)
    ensures |parsed| == |files|
    ensures forall i :: 0 <= i < |files| ==> parsed[i] == ParseBundle(files[i], searchPath, lake)
  {
    seq(|files|, i requires 0 <= i < |files| => ParseBundle(files[i], searchPath, lake))
  }

  /** The messages among the parse results, in order: a file that parsed
      to nothing is skipped. */
  function Found<T>(parsed: seq<Option<T>>): (found: seq<T>)
    ensures |found| <= |parsed|
  {
    if parsed == [] then []
    else
      var head := if parsed[0].Some? then [parsed[0].value] else [];
      head + Found(parsed[1..])
  }

  /** The bundles parsed from the files in walk order. */
  function ParseAll(files: seq<YamlFile<BundleDoc>>, searchPath: Path, lake: Option<Lake>): seq<Bundle> {
    Found(ParseEach(files, searchPath, lake))
  }

  /** Skipping distributes over concatenation. */
  lemma {:induction false} FoundConcat<T>(a: seq<Option<T>>, b: seq<Option<T>>)
    ensures Found(a + b) == Found(a) + Found(b)
    decreases |a|
  {
    if a == [] {
      assert a + b == b;
    } else {
      var head := if a[0].Some? then [a[0].value] else [];
      assert (a + b)[0] == a[0] && (a + b)[1..] == a[1..] + b;
      FoundConcat(a[1..], b);
      assert Found(a + b) == head + (Found(a[1..]) + Found(b));
      assert Found(a) == head + Found(a[1..]);
    }
  }

  /** One parse result contributes its bundle, if it has one. */
  lemma FoundOne<T>(o: Option<T>)
    ensures Found([o]) == if o.Some? then [o.value] else []
  {
    assert [o][1..] == [];
  }

  /** Parsing distributes over the walk: each file contributes on its
      own. */
  lemma ParseAllConcat(a: seq<YamlFile<BundleDoc>>, b: seq<YamlFile<BundleDoc>>, searchPath: Path, lake: Option<Lake>)
    ensures ParseAll(a + b, searchPath, lake) == ParseAll(a, searchPath, lake) + ParseAll(b, searchPath, lake)
  {
    var pa, pb, pab := ParseEach(a, searchPath, lake), ParseEach(b, searchPath, lake), ParseEach(a + b, searchPath, lake);
    forall i | 0 <= i < |a + b| ensures pab[i] == (pa + pb)[i] {
      if i < |a| {
        assert (a + b)[i] == a[i];
      } else {
        assert (a + b)[i] == b[i - |a|];
      }
    }
    assert pab == pa + pb;
    FoundConcat(ParseEach(a, searchPath, lake), ParseEach(b, searchPath, lake));
  }

  /** So a file that fails to parse or names no bundle is passed over and
      discovery goes on with the rest; a named one contributes its
      bundle in its place. */
  lemma SkippedFileIgnored(a: seq<YamlFile<BundleDoc>>, f: YamlFile<BundleDoc>, b: seq<YamlFile<BundleDoc>>, searchPath: Path, lake: Option<Lake>)
    ensures !Named(f) ==> ParseAll(a + [f] + b, searchPath, lake) == ParseAll(a, searchPath, lake) + ParseAll(b, searchPath, lake)
    ensures Named(f) ==>
      ParseAll(a + [f] + b, searchPath, lake)
      == ParseAll(a, searchPath, lake) + [ParseBundle(f, searchPath, lake).value] + ParseAll(b, searchPath, lake)
  {
    ParseAllConcat(a + [f], b, searchPath, lake);
    ParseAllConcat(a, [f], searchPath, lake);
    assert ParseEach([f], searchPath, lake) == [ParseBundle(f, searchPath, lake)];
    FoundOne(ParseBundle(f, searchPath, lake));
  }

  /** `discoverBundles`: nothing when the search path does not exist
      (`walk` is `None`), otherwise the bundles of the walk's files. */
  method DiscoverBundles(searchPath: Path, lake: Option<Lake>, walk: Option<seq<YamlFile<BundleDoc>>>) returns (bundles: seq<Bundle>)
    ensures walk.None? ==> bundles == []
    ensures walk.Some? ==> bundles == ParseAll(walk.value, searchPath, lake)
  {
    bundles := [];
    if walk.None? {
      return;
    }
    var files := walk.value;
    ghost var parsed := ParseEach(files, searchPath, lake);
    for i := 0 to |files|
      invariant bundles == Found(parsed[..i])
    {
      var bundle := ParseBundle(files[i], searchPath, lake);
      assert parsed[..i + 1] == parsed[..i] + [bundle];
      FoundConcat(parsed[..i], [bundle]);
      FoundOne(bundle);
      if bundle.Some? {
        bundles := bundles + [bundle.value];
      }
    }
    assert parsed[..|files|] == parsed;
  }

  /** The ids of the bundles, read from their names. */
  function Ids(bundles: seq<Bundle>): (ids: seq<string>)
    ensures |ids| == |bundles|
    ensures forall i :: 0 <= i < |bundles| ==> ids[i] == BundleUtil.ExtractBundleIdAsWritten(bundles[i].name)
  {
    seq(|bundles|, i requires 0 <= i < |bundles| => BundleUtil.ExtractBundleIdAsWritten(bundles[i].name))
  }

  /** The bundles the bundle validator passes against the stored lakes. */
  ghost function Passed(lakes: map<string, Lake>, basePath: string): iset<Bundle> {
    iset b | BundleAccepted(lakes, basePath, b)
  }

  /** One turn of the refresh loop on the bundles table: the bundle's
      entry in the lake is deleted, and the bundle is created if it is
      among the `passed` ones and its key is free. */
  function Cleared(bundles: map<BundleKey, Bundle>, lakeName: string, b: Bundle): map<BundleKey, Bundle> {
    bundles - {BundleKey(lakeName, BundleUtil.ExtractBundleIdAsWritten(b.name))}
  }

  ghost predicate Created(bundles: map<BundleKey, Bundle>, passed: iset<Bundle>, lakeName: string, b: Bundle) {
    b in passed && KeyOf(b) !in Cleared(bundles, lakeName, b)
  }

  ghost function RefreshStep(bundles: map<BundleKey, Bundle>, passed: iset<Bundle>, lakeName: string, b: Bundle): map<BundleKey, Bundle> {
    var m := Cleared(bundles, lakeName, b);
    if Created(bundles, passed, lakeName, b) then m[KeyOf(b) := b] else m
  }

  /** The bundles table after the refresh loop over `bs`. */
  ghost function Refreshed(bundles: map<BundleKey, Bundle>, passed: iset<Bundle>, lakeName: string, bs: seq<Bundle>): map<BundleKey, Bundle>
    decreases |bs|
  {
    if bs == [] then bundles
    else Refreshed(RefreshStep(bundles, passed, lakeName, bs[0]), passed, lakeName, bs[1..])
  }

  /** The number of creates that succeed in the refresh loop over `bs`. */
  ghost function CreatedCount(bundles: map<BundleKey, Bundle>, passed: iset<Bundle>, lakeName: string, bs: seq<Bundle>): nat
    decreases |bs|
  {
    if bs == [] then 0
    else
      var now := if Created(bundles, passed, lakeName, bs[0]) then 1 else 0;
      now + CreatedCount(RefreshStep(bundles, passed, lakeName, bs[0]), passed, lakeName, bs[1..])
  }

  /** `refreshBundlesForLake`: discover the lake's bundles, drop the
      stored ones no longer discovered, then delete and recreate each
      discovered one, counting the creates that succeed. */
  method RefreshBundlesForLake(store: Store, lake: Lake, walk: Option<seq<YamlFile<BundleDoc>>>) returns (count: nat)
    requires store.Valid()
    modifies store
    ensures store.Valid() && store.lakes == old(store.lakes)
    ensures var lakeName := LakeUtil.ExtractLakeId(lake.name);
      var bs := if walk.None? then [] else ParseAll(walk.value, LakeUtil.GetLocalPath(lake, store.basePath), Some(lake));
      var start := KeepListed(old(store.bundles), lakeName, Ids(bs));
      var passed := Passed(store.lakes, store.basePath);
      store.bundles == Refreshed(start, passed, lakeName, bs) &&
      count == CreatedCount(start, passed, lakeName, bs)
  {
    var lakeName := LakeUtil.ExtractLakeId(lake.name);
    var bs := DiscoverBundles(LakeUtil.GetLocalPath(lake, store.basePath), Some(lake), walk);
    store.RemoveStaleBundles(lakeName, Ids(bs));
    ghost var start := store.bundles;
    ghost var passed := Passed(store.lakes, store.basePath);
    count := 0;
    for i := 0 to |bs|
      invariant store.Valid() && store.lakes == old(store.lakes)
      invariant Refreshed(store.bundles, passed, lakeName, bs[i..]) == Refreshed(start, passed, lakeName, bs)
      invariant count + CreatedCount(store.bundles, passed, lakeName, bs[i..]) == CreatedCount(start, passed, lakeName, bs)
    {
      assert bs[i..][1..] == bs[i + 1..];
      var created := RefreshOne(store, lakeName, bs[i]);
      if created {
        count := count + 1;
      }
    }
  }

  lemma RemoveAbsent<K, V>(m: map<K, V>, k: K)
    requires k !in m
    ensures m - {k} == m
  {
  }

  /** One turn of the refresh loop: delete the stored bundle if there is
      one, then create the discovered one. */
  method RefreshOne(store: Store, lakeName: string, b: Bundle) returns (created: bool)
    requires store.Valid()
    modifies store
    ensures store.Valid() && store.lakes == old(store.lakes)
    ensures created == Created(old(store.bundles), Passed(store.lakes, store.basePath), lakeName, b)
    ensures store.bundles == RefreshStep(old(store.bundles), Passed(store.lakes, store.basePath), lakeName, b)
  {
    var bundleName := BundleUtil.ExtractBundleIdAsWritten(b.name);
    var existing := store.GetBundle(lakeName, bundleName);
    if existing.Some? {
      var _ := store.DeleteBundle(lakeName, bundleName);
    } else {
      RemoveAbsent(store.bundles, BundleKey(lakeName, bundleName));
    }
    assert store.bundles == Cleared(old(store.bundles), lakeName, b);
    assert b in Passed(store.lakes, store.basePath) <==> BundleAccepted(store.lakes, store.basePath, b);
    var r := store.CreateBundle(b);
    created := r.Ok?;
  }

  /** Every bundle is named in the lake: it is stored under the lake and
      its own id. */
  predicate InLake(bs: seq<Bundle>, lakeName: string) {
    forall i :: 0 <= i < |bs| ==> KeyOf(bs[i]) == BundleKey(lakeName, BundleUtil.ExtractBundleIdAsWritten(bs[i].name))
  }

  predicate DistinctIds(bs: seq<Bundle>) {
    forall i, j :: 0 <= i < j < |bs| ==> Ids(bs)[i] != Ids(bs)[j]
  }

  /** The ids of the `passed` bundles, in order. */
  ghost function PassedIds(passed: iset<Bundle>, bs: seq<Bundle>): (ids: seq<string>)
    ensures |ids| <= |bs|
  {
    if bs == [] then []
    else
      var head := if bs[0] in passed then [BundleUtil.ExtractBundleIdAsWritten(bs[0].name)] else [];
      head + PassedIds(passed, bs[1..])
  }

  lemma IdsTail(bs: seq<Bundle>)
    requires bs != []
    ensures Ids(bs[1..]) == Ids(bs)[1..]
  {
  }

  lemma TailInLake(bs: seq<Bundle>, lakeName: string)
    requires bs != [] && InLake(bs, lakeName) && DistinctIds(bs)
    ensures InLake(bs[1..], lakeName) && DistinctIds(bs[1..])
    ensures Ids(bs)[0] !in Ids(bs[1..])
  {
    var rest := bs[1..];
    IdsTail(bs);
    forall i | 0 <= i < |rest| ensures KeyOf(rest[i]) == BundleKey(lakeName, BundleUtil.ExtractBundleIdAsWritten(rest[i].name)) {
      assert rest[i] == bs[i + 1];
    }
    forall i, j | 0 <= i < j < |rest| ensures Ids(rest)[i] != Ids(rest)[j] {
      assert Ids(rest)[i] == Ids(bs)[i + 1] && Ids(rest)[j] == Ids(bs)[j + 1];
    }
    forall j | 0 <= j < |Ids(rest)| ensures Ids(rest)[j] != Ids(bs)[0] {
      assert Ids(rest)[j] == Ids(bs)[j + 1];
    }
  }

  /** With distinct ids named in the lake, the refresh loop leaves every
      other entry alone, holds each bundle exactly when it is among the
      `passed` ones, and counts the bundles passed. */
  lemma {:induction false} RefreshOutcome(start: map<BundleKey, Bundle>, passed: iset<Bundle>, lakeName: string, bs: seq<Bundle>)
    requires InLake(bs, lakeName) && DistinctIds(bs)
    ensures var final := Refreshed(start, passed, lakeName, bs);
      (forall k: BundleKey :: k.lake != lakeName || k.id !in Ids(bs) ==>
         (k in final <==> k in start) && (k in start ==> final[k] == start[k])) &&
      (forall i :: 0 <= i < |bs| ==>
         (KeyOf(bs[i]) in final <==> bs[i] in passed) && (bs[i] in passed ==> final[KeyOf(bs[i])] == bs[i])) &&
      CreatedCount(start, passed, lakeName, bs) == |PassedIds(passed, bs)|
    decreases |bs|
  {
    if bs != [] {
      var b0 := bs[0];
      var m1 := RefreshStep(start, passed, lakeName, b0);
      TailInLake(bs, lakeName);
      IdsTail(bs);
      RefreshOutcome(m1, passed, lakeName, bs[1..]);
      assert KeyOf(b0) == BundleKey(lakeName, Ids(bs)[0]);
      assert Created(start, passed, lakeName, b0) <==> b0 in passed;
    }
  }

  /** The id of a passed bundle is among the passed ids. */
  lemma {:induction false} PassedIdsHas(passed: iset<Bundle>, bs: seq<Bundle>, i: nat)
    requires i < |bs| && bs[i] in passed
    ensures Ids(bs)[i] in PassedIds(passed, bs)
    decreases |bs|
  {
    var head := if bs[0] in passed then [BundleUtil.ExtractBundleIdAsWritten(bs[0].name)] else [];
    var rest := bs[1..];
    assert PassedIds(passed, bs) == head + PassedIds(passed, rest);
    if i == 0 {
      assert head == [Ids(bs)[0]];
    } else {
      IdsTail(bs);
      assert rest[i - 1] == bs[i] && Ids(rest)[i - 1] == Ids(bs)[i];
      PassedIdsHas(passed, rest, i - 1);
    }
  }

  /** Each of the passed ids is the id of a passed bundle. */
  lemma {:induction false} PassedIdsFrom(passed: iset<Bundle>, bs: seq<Bundle>, id: string)
    requires id in PassedIds(passed, bs)
    ensures exists i :: 0 <= i < |bs| && Ids(bs)[i] == id && bs[i] in passed
    decreases |bs|
  {
    var rest := bs[1..];
    IdsTail(bs);
    if bs[0] in passed && id == Ids(bs)[0] {
    } else {
      PassedIdsFrom(passed, rest, id);
      var i :| 0 <= i < |rest| && Ids(rest)[i] == id && rest[i] in passed;
      assert Ids(bs)[i + 1] == id && bs[i + 1] == rest[i];
    }
  }

  /** After a refresh the lake holds exactly the discovered bundles that
      passed, each one as discovered; other lakes keep their bundles; and
      the count is the number of bundles that passed. */
  lemma RefreshedLake(oldBundles: map<BundleKey, Bundle>, passed: iset<Bundle>, lakeName: string, bs: seq<Bundle>)
    requires InLake(bs, lakeName) && DistinctIds(bs)
    ensures var start := KeepListed(oldBundles, lakeName, Ids(bs));
      var final := Refreshed(start, passed, lakeName, bs);
      (forall k: BundleKey :: k.lake == lakeName ==> (k in final <==> k.id in PassedIds(passed, bs))) &&
      (forall i :: 0 <= i < |bs| && bs[i] in passed ==> KeyOf(bs[i]) in final && final[KeyOf(bs[i])] == bs[i]) &&
      (forall k: BundleKey :: k.lake != lakeName ==> (k in final <==> k in oldBundles) && (k in final ==> final[k] == oldBundles[k])) &&
      CreatedCount(start, passed, lakeName, bs) == |PassedIds(passed, bs)|
  {
    var start := KeepListed(oldBundles, lakeName, Ids(bs));
    var final := Refreshed(start, passed, lakeName, bs);
    RefreshOutcome(start, passed, lakeName, bs);
    forall k: BundleKey | k.lake == lakeName ensures k in final <==> k.id in PassedIds(passed, bs) {
      if k.id in Ids(bs) {
        var i :| 0 <= i < |bs| && Ids(bs)[i] == k.id;
        assert KeyOf(bs[i]) == k;
        if k.id in PassedIds(passed, bs) {
          PassedIdsFrom(passed, bs, k.id);
          var j :| 0 <= j < |bs| && Ids(bs)[j] == k.id && bs[j] in passed;
          assert !(i < j) && !(j < i);
        } else if bs[i] in passed {
          PassedIdsHas(passed, bs, i);
        }
      } else {
        assert k !in start;
        if k.id in PassedIds(passed, bs) {
          PassedIdsFrom(passed, bs, k.id);
        }
      }
    }
  }
}
