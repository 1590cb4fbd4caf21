/** Helpers on Lake messages: the `lakes/{id}` resource name, the lake's
    directory under the workspace, its workspace-relative path used for
    Bazel targets, and timestamp conversion. */
module LakeUtil {
  import opened Text
  import opened JavaText
  import opened JavaPaths
  import opened Protos

  const ResourcePrefix := "lakes/"

  /** `extractLakeId`: strips one leading `lakes/`; any other name is
      already an id. */
  function ExtractLakeId(resourceName: string): (id: string)
    ensures StartsWith(resourceName, ResourcePrefix) ==> resourceName == ResourcePrefix + id
    ensures !StartsWith(resourceName, ResourcePrefix) ==> id == resourceName
  {
    if StartsWith(resourceName, ResourcePrefix) then resourceName[|ResourcePrefix|..] else resourceName
  }

  function ToResourceName(lakeId: string): string {
    ResourcePrefix + lakeId
  }

  /** Every id survives the trip through its resource name. */
  lemma ExtractLakeIdOfResourceName(lakeId: string)
    ensures ExtractLakeId(ToResourceName(lakeId)) == lakeId
  {
    DropPrefix(ResourcePrefix, lakeId);
  }

  /** And every resource name survives the trip through its id. */
  lemma ResourceNameOfExtractedId(resourceName: string)
    requires StartsWith(resourceName, ResourcePrefix)
    ensures ToResourceName(ExtractLakeId(resourceName)) == resourceName
  {
  }

  /** `getLocalPath`: `base[/lake_prefix]/id`. */
  function GetLocalPath(lake: Lake, basePath: string): Path {
    var base := Get(basePath);
    var lakeId := ExtractLakeId(lake.name);
    if lake.lakePrefix != "" then ResolveString(ResolveString(base, lake.lakePrefix), lakeId)
    else ResolveString(base, lakeId)
  }

  /** `getRelativePath`: `lake_prefix/id` as a path string with forward
      slashes, or the bare id without a prefix. */
  function GetRelativePath(lake: Lake): string {
    var lakeId := ExtractLakeId(lake.name);
    if lake.lakePrefix != "" then ReplaceChar(ToString(ResolveString(Get(lake.lakePrefix), lakeId)), '\\', '/')
    else lakeId
  }

  /** A text that names the same path it prints as: relative, no
      redundant slashes, no backslashes. */
  predicate PlainRelative(s: string) {
    s == Join(Names(s), "/") && !StartsWith(s, "/") && !HasChar(s, '\\')
  }

  /** With a plain prefix and id, the relative path is `prefix/id` and
      the local path is that path resolved against the base: the two
      helpers agree on where a lake lives. */
  lemma RelativeAndLocalPathAgree(lake: Lake, basePath: string)
    requires lake.lakePrefix != "" && PlainRelative(lake.lakePrefix)
    requires IsName(ExtractLakeId(lake.name)) && !HasChar(ExtractLakeId(lake.name), '\\')
    ensures GetRelativePath(lake) == lake.lakePrefix + "/" + ExtractLakeId(lake.name)
    ensures GetLocalPath(lake, basePath) == Resolve(Get(basePath), Get(GetRelativePath(lake)))
  {
    var id := ExtractLakeId(lake.name);
    var ps := Names(lake.lakePrefix);
    NamesJoin([id]);
    assert Join([id], "/") == id;
    var p := Path(false, ps + [id]);
    assert ResolveString(Get(lake.lakePrefix), id) == p;
    assert ps != [];
    JoinSnoc(ps, "/", id);
    assert ToString(p) == lake.lakePrefix + "/" + id;
    NamesFreeOf(lake.lakePrefix, '\\');
    forall i | 0 <= i < |p.names| ensures !HasChar(p.names[i], '\\') {
      if i == |ps| { assert p.names[i] == id; } else { assert p.names[i] == ps[i]; }
    }
    assert !HasChar("/", '\\');
    JoinCharFree(p.names, "/", '\\');
    ReplaceCharAbsent(ToString(p), '\\', '/');
    GetToString(p);
    ResolveAssoc(Get(basePath), Get(lake.lakePrefix), Get(id));
  }

  /** `convertToLakeRelativePath`: the target relative to the lake, `.`
      for the lake itself, and IllegalArgumentException for a target
      outside the lake. */
  function ConvertToLakeRelativePath(baseRelativePath: string, lake: Lake): (r: Result<string>)
    ensures r.Err? <==> baseRelativePath != GetRelativePath(lake) && !StartsWith(baseRelativePath, GetRelativePath(lake) + "/")
  {
    var lakePath := GetRelativePath(lake);
    if baseRelativePath == lakePath then Ok(".")
    else if StartsWith(baseRelativePath, lakePath + "/") then Ok(baseRelativePath[|lakePath| + 1..])
    else Err("Target path '" + baseRelativePath + "' is not within lake '" + lake.name + "' (path: " + lakePath + ")")
  }

  /** Converting a target below the lake gives back the part below it. */
  lemma ConvertBelowLake(lake: Lake, rest: string)
    ensures ConvertToLakeRelativePath(GetRelativePath(lake) + "/" + rest, lake) == Ok(rest)
  {
    var lakePath := GetRelativePath(lake);
    DropPrefix(lakePath + "/", rest);
    assert lakePath + "/" + rest != lakePath;
  }

  /** And a converted path put back under the lake gives the target. */
  lemma ConvertInverse(baseRelativePath: string, lake: Lake)
    requires ConvertToLakeRelativePath(baseRelativePath, lake).Ok?
    ensures var r := ConvertToLakeRelativePath(baseRelativePath, lake).value;
      baseRelativePath == (if r == "." && baseRelativePath == GetRelativePath(lake) then GetRelativePath(lake)
                           else GetRelativePath(lake) + "/" + r)
  {
    var lakePath := GetRelativePath(lake);
    if baseRelativePath != lakePath {
      assert baseRelativePath == baseRelativePath[..|lakePath| + 1] + baseRelativePath[|lakePath| + 1..];
    }
  }

  /** `java.time.Instant`: seconds since the epoch and a nanosecond
      adjustment in `[0, 10^9)`, within Instant's range. */
  datatype Instant = Instant(epochSecond: int, nano: int)

  const NanosPerSecond := 1000000000
  const MinSecond := -31557014167219200
  const MaxSecond := 31556889864403199

  predicate ValidInstant(i: Instant) {
    MinSecond <= i.epochSecond <= MaxSecond && 0 <= i.nano < NanosPerSecond
  }

  /** `toProtoTimestamp`. */
  function ToProtoTimestamp(i: Instant): Timestamp {
    Timestamp(i.epochSecond, i.nano)
  }

  /** `fromProtoTimestamp`: `Instant.ofEpochSecond(seconds, nanos)`, which
      carries whole seconds out of the nanos (floor division) and throws
      DateTimeException outside Instant's range. */
  function FromProtoTimestamp(t: Timestamp): (r: Result<Instant>)
    ensures r.Ok? ==> ValidInstant(r.value)
    ensures r.Ok? ==> r.value.epochSecond * NanosPerSecond + r.value.nano == t.seconds * NanosPerSecond + t.nanos
  {
    var secs := t.seconds + t.nanos / NanosPerSecond;
    var nos := t.nanos % NanosPerSecond;
    if MinSecond <= secs <= MaxSecond then Ok(Instant(secs, nos))
    else Err("Instant exceeds minimum or maximum instant")
  }

  /** An instant survives the trip through its timestamp. */
  lemma InstantRoundTrip(i: Instant)
    requires ValidInstant(i)
    ensures FromProtoTimestamp(ToProtoTimestamp(i)) == Ok(i)
  {
  }

  /** A normalised timestamp survives the trip through its instant. */
  lemma TimestampRoundTrip(t: Timestamp)
    requires MinSecond <= t.seconds <= MaxSecond && 0 <= t.nanos < NanosPerSecond
    ensures FromProtoTimestamp(t).Ok? && ToProtoTimestamp(FromProtoTimestamp(t).value) == t
  {
  }
}
