/** The checks a lake passes before it is created or updated: a word id,
    a directory inside the workspace with no lake above it, and a config
    whose `module_bazel` names its versions. The file-system probes read a
    `Disk`, the set of regular files and directories that exist. */
module LakeValidator {
  import opened Text
  import opened JavaText
  import opened JavaPaths
  import opened Protos
  import LakeUtil
  import BundleUtil
  import PathValidation
  import opened ValidationExceptions

  const Summary := "Lake validation failed"
  const LakeYaml := "lake.yaml"

  /** The messages, in rule order. */
  const NameRequired := "Lake name is required"
  const NameInvalid := "Lake name must contain only alphanumeric characters and underscores"
  const OutsideRoot := "Lake path must be within workspace root: "
  const NestedLake := "Nested lakes are not allowed. Found parent lake at: "
  const NotDirectory := "Lake path exists but is not a directory: "
  const ConfigRequired := "Lake configuration is required"
  const ProtobufRequired := "Protobuf version is required when module_bazel is configured"
  const GrpcRequired := "gRPC version is required when module_bazel is configured"

  /** What `Files.exists` and `Files.isDirectory` see. */
  datatype Disk = Disk(files: set<Path>, dirs: set<Path>)

  predicate Exists(disk: Disk, p: Path) {
    p in disk.files || p in disk.dirs
  }

  predicate IsDirectory(disk: Disk, p: Path) {
    p in disk.dirs
  }

  /** A `lake.yaml` exists in `dir`. */
  predicate HasLakeYaml(disk: Disk, dir: Path) {
    Exists(disk, Resolve(dir, Path(false, [LakeYaml])))
  }

  /** The lake id: required, and a word. */
  function NameErrors(lakeName: string): (errs: seq<string>)
    ensures lakeName == "" ==> errs == [NameRequired]
    ensures lakeName != "" ==> (errs == [] <==> IsWord(lakeName)) && |errs| <= 1
  {
    if lakeName == "" then [NameRequired]
    else if !IsWord(lakeName) then [NameInvalid]
    else []
  }

  /** The ancestor of `p` made of its first `k` names. */
  function Ancestor(p: Path, k: nat): Path
    requires k <= |p.names|
  {
    Path(p.absolute, p.names[..k])
  }

  /** The walk up from `current` towards the workspace root: the first
      directory holding a `lake.yaml`, if any, before the root or the top
      is reached. */
  function FirstNestedLake(current: Option<Path>, root: Path, disk: Disk): Option<Path>
    decreases if current.None? then 0 else |current.value.names| + 1
  {
    match current
    case None => None
    case Some(dir) =>
      if dir == root then None
      else if HasLakeYaml(disk, dir) then Some(dir)
      else FirstNestedLake(Parent(dir), root, disk)
  }

  /** From the ancestor with `j` names down to the root, the walk finds
      the deepest ancestor holding a `lake.yaml`, and finds nothing when
      none of them does. */
  lemma {:induction false} ScanFrom(lakePath: Path, root: Path, disk: Disk, j: nat)
    requires StartsWithPath(lakePath, root) && |root.names| <= j <= |lakePath.names|
    ensures var r := FirstNestedLake(Some(Ancestor(lakePath, j)), root, disk);
      (r.Some? ==>
         |root.names| < |r.value.names| <= j && r.value == Ancestor(lakePath, |r.value.names|) &&
         HasLakeYaml(disk, r.value) &&
         forall k :: |r.value.names| < k <= j ==> !HasLakeYaml(disk, Ancestor(lakePath, k))) &&
      (r.None? ==> forall k :: |root.names| < k <= j ==> !HasLakeYaml(disk, Ancestor(lakePath, k)))
    decreases j
  {
    var dir := Ancestor(lakePath, j);
    if j == |root.names| {
      assert dir == root;
    } else {
      assert dir != root by { assert |dir.names| != |root.names|; }
      if !HasLakeYaml(disk, dir) {
        if j == 1 && !lakePath.absolute {
          assert Parent(dir).None?;
        } else {
          assert lakePath.names[..j][..j - 1] == lakePath.names[..j - 1];
          assert Parent(dir) == Some(Ancestor(lakePath, j - 1));
          ScanFrom(lakePath, root, disk, j - 1);
        }
      }
    }
  }

  /** The walk from a lake's parent reports the closest ancestor below the
      root that holds a `lake.yaml`; it reports nothing exactly when no
      directory strictly between the root and the lake holds one. */
  lemma NestedLakeScan(lakePath: Path, root: Path, disk: Disk)
    requires StartsWithPath(lakePath, root) && |root.names| < |lakePath.names|
    ensures var r := FirstNestedLake(Parent(lakePath), root, disk);
      (r.Some? ==>
         |root.names| < |r.value.names| < |lakePath.names| &&
         r.value == Ancestor(lakePath, |r.value.names|) && HasLakeYaml(disk, r.value) &&
         forall k :: |r.value.names| < k < |lakePath.names| ==> !HasLakeYaml(disk, Ancestor(lakePath, k))) &&
      (r.None? <==> forall k :: |root.names| < k < |lakePath.names| ==> !HasLakeYaml(disk, Ancestor(lakePath, k)))
  {
    var n := |lakePath.names|;
    if n == 1 && !lakePath.absolute {
      assert Parent(lakePath).None?;
    } else {
      assert Parent(lakePath) == Some(Ancestor(lakePath, n - 1));
      ScanFrom(lakePath, root, disk, n - 1);
    }
  }

  /** `validateLocalPath` on the lake's directory as `getLocalPath` built
      it: inside the root, no lake above it, and not a regular file. */
  function LocalPathErrors(lakePath: Path, root: Path, disk: Disk): (errs: seq<string>)
    ensures |errs| <= 1
  {
    if !StartsWithPath(lakePath, root) then [OutsideRoot + ToString(root)]
    else match FirstNestedLake(Parent(lakePath), root, disk)
      case Some(dir) => [NestedLake + ToString(dir)]
      case None =>
        if Exists(disk, lakePath) && !IsDirectory(disk, lakePath) then [NotDirectory + ToString(lakePath)]
        else []
  }

  /** A lake below the root passes the path rules exactly when no
      directory between them holds a `lake.yaml` and its own path is free
      or a directory. */
  lemma LocalPathAccepted(lakePath: Path, root: Path, disk: Disk)
    requires |root.names| < |lakePath.names|
    ensures LocalPathErrors(lakePath, root, disk) == [] <==>
      StartsWithPath(lakePath, root) &&
      (forall k :: |root.names| < k < |lakePath.names| ==> !HasLakeYaml(disk, Ancestor(lakePath, k))) &&
      (Exists(disk, lakePath) ==> IsDirectory(disk, lakePath))
  {
    if StartsWithPath(lakePath, root) {
      NestedLakeScan(lakePath, root, disk);
    }
  }

  /** The path `validateLocalPath` checks as written: a relative lake path
      is resolved against the workspace root once more, although
      `getLocalPath` already placed it under that root. */
  function CheckedPathAsWritten(lakePath: Path, root: Path): (r: Path)
    ensures r.absolute || StartsWithPath(r, root)
  {
    if !lakePath.absolute then
      StartsWithResolve(root, lakePath);
      Resolve(root, lakePath)
    else lakePath
  }

  /** What `validateLocalPath` reports as written: the checks on the
      resolved path. */
  function LocalPathErrorsAsWritten(lakePath: Path, root: Path, disk: Disk): (errs: seq<string>)
    ensures |errs| <= 1
  {
    LocalPathErrors(CheckedPathAsWritten(lakePath, root), root, disk)
  }

  /** `validateLocalPath`, adding to the caller's list: the resolution,
      then the walk up to the workspace root. */
  method ValidateLocalPath(lakePath: Path, root: Path, disk: Disk, errors: seq<string>) returns (out: seq<string>)
    ensures out == errors + LocalPathErrorsAsWritten(lakePath, root, disk)
  {
    out := errors;
    var path := lakePath;
    if !path.absolute {
      path := Resolve(root, path);
    }
    assert path == CheckedPathAsWritten(lakePath, root);
    if !StartsWithPath(path, root) {
      out := out + [OutsideRoot + ToString(root)];
      return;
    }
    var current := Parent(path);
    while current.Some? && current.value != root
      invariant FirstNestedLake(current, root, disk) == FirstNestedLake(Parent(path), root, disk)
      decreases if current.None? then 0 else |current.value.names| + 1
    {
      if HasLakeYaml(disk, current.value) {
        out := out + [NestedLake + ToString(current.value)];
        return;
      }
      current := Parent(current.value);
    }
    if Exists(disk, path) && !IsDirectory(disk, path) {
      out := out + [NotDirectory + ToString(path)];
    }
  }

  /** Under an absolute base path, the lake's path is absolute and the
      extra resolution changes nothing. */
  lemma AbsoluteBaseAgrees(lake: Lake, basePath: string, disk: Disk)
    requires StartsWith(basePath, "/")
    ensures LocalPathErrorsAsWritten(LakeUtil.GetLocalPath(lake, basePath), Get(basePath), disk)
         == LocalPathErrors(LakeUtil.GetLocalPath(lake, basePath), Get(basePath), disk)
  {
  }

  /** Under a relative base path and a relative prefix, the path checked
      as written holds the base's names twice. */
  lemma RelativeBaseDoubled(lake: Lake, basePath: string)
    requires !StartsWith(basePath, "/") && !StartsWith(lake.lakePrefix, "/")
    requires !StartsWith(LakeUtil.ExtractLakeId(lake.name), "/")
    ensures var local := LakeUtil.GetLocalPath(lake, basePath);
      StartsWithPath(local, Get(basePath)) &&
      CheckedPathAsWritten(local, Get(basePath)).names == Get(basePath).names + local.names
  {
    var base := Get(basePath);
    var lakeId := LakeUtil.ExtractLakeId(lake.name);
    if lake.lakePrefix != "" {
      var p := ResolveString(base, lake.lakePrefix);
      StartsWithResolve(base, Get(lake.lakePrefix));
      StartsWithResolve(p, Get(lakeId));
      StartsWithTrans(ResolveString(p, lakeId), p, base);
    } else {
      StartsWithResolve(base, Get(lakeId));
    }
  }

  /** So a lake `l` with prefix `p` under the base `ws`, below a directory
      `ws/p` that is itself a lake, passes as written: the walk visits
      `ws/ws/p` and `ws/ws` instead. */
  lemma NestedLakeMissedAsWritten()
    ensures var lakePath := Path(false, ["ws", "p", "l"]);
      var root := Path(false, ["ws"]);
      var disk := Disk({Path(false, ["ws", "p", LakeYaml])}, {});
      LocalPathErrorsAsWritten(lakePath, root, disk) == [] &&
      LocalPathErrors(lakePath, root, disk) == [NestedLake + "ws/p"]
  {
    var lakePath := Path(false, ["ws", "p", "l"]);
    var root := Path(false, ["ws"]);
    var disk := Disk({Path(false, ["ws", "p", LakeYaml])}, {});
    var doubled := Path(false, ["ws", "ws", "p", "l"]);
    assert CheckedPathAsWritten(lakePath, root) == doubled;
    assert StartsWithPath(doubled, root);
    assert doubled.names[..3] == ["ws", "ws", "p"];
    assert Parent(doubled) == Some(Path(false, ["ws", "ws", "p"]));
    assert !HasLakeYaml(disk, Path(false, ["ws", "ws", "p"])) by {
      assert Resolve(Path(false, ["ws", "ws", "p"]), Path(false, [LakeYaml])) == Path(false, ["ws", "ws", "p", LakeYaml]);
    }
    assert ["ws", "ws", "p"][..2] == ["ws", "ws"];
    assert Parent(Path(false, ["ws", "ws", "p"])) == Some(Path(false, ["ws", "ws"]));
    assert !HasLakeYaml(disk, Path(false, ["ws", "ws"])) by {
      assert Resolve(Path(false, ["ws", "ws"]), Path(false, [LakeYaml])) == Path(false, ["ws", "ws", LakeYaml]);
    }
    assert ["ws", "ws"][..1] == ["ws"];
    assert Parent(Path(false, ["ws", "ws"])) == Some(root);
    assert !Exists(disk, doubled);
    assert StartsWithPath(lakePath, root);
    assert lakePath.names[..2] == ["ws", "p"];
    assert Parent(lakePath) == Some(Path(false, ["ws", "p"]));
    assert HasLakeYaml(disk, Path(false, ["ws", "p"])) by {
      assert Resolve(Path(false, ["ws", "p"]), Path(false, [LakeYaml])) == Path(false, ["ws", "p", LakeYaml]);
    }
    assert ToString(Path(false, ["ws", "p"])) == "ws/p";
  }

  /** `validateLakePrefixConsistency`. */
  function PrefixConsistencyErrors(lake: Lake, basePath: string): seq<string> {
    var lakeName := LakeUtil.ExtractLakeId(lake.name);
    var actualPath := LakeUtil.GetLocalPath(lake, basePath);
    var root := Get(basePath);
    if !PathValidation.ValidateLakePrefix(lake.lakePrefix, lakeName, actualPath, root) then
      ["Lake prefix mismatch. Configuration has '" + lake.lakePrefix + "' but actual path suggests '"
       + PathValidation.CalculateLakePrefix(actualPath, lakeName, root) + "'"]
    else []
  }

  /** The prefix-consistency rule never fires: the path it checks is built
      from the very prefix it checks against. */
  lemma PrefixConsistencyNeverFires(lake: Lake, basePath: string)
    ensures PrefixConsistencyErrors(lake, basePath) == []
  {
    var lakeName := LakeUtil.ExtractLakeId(lake.name);
    assert PathValidation.ExpectedLakePath(Get(basePath), lake.lakePrefix, lakeName)
        == LakeUtil.GetLocalPath(lake, basePath);
  }

  /** `validateConfig`: a configured `module_bazel` names its protobuf
      and gRPC versions. */
  function ModuleBazelErrors(moduleBazel: Option<ModuleBazel>): (errs: seq<string>)
    ensures errs == [] <==> (moduleBazel.None? ||
      (!IsBlankJava(moduleBazel.value.protobufVersion) && !IsBlankJava(moduleBazel.value.grpcVersion)))
    ensures ProtobufRequired in errs <==> moduleBazel.Some? && IsBlankJava(moduleBazel.value.protobufVersion)
    ensures GrpcRequired in errs <==> moduleBazel.Some? && IsBlankJava(moduleBazel.value.grpcVersion)
  {
    match moduleBazel
    case None => []
    case Some(m) =>
      (if IsBlankJava(m.protobufVersion) then [ProtobufRequired] else [])
      + (if IsBlankJava(m.grpcVersion) then [GrpcRequired] else [])
  }

  /** The config is required. */
  function ConfigErrors(config: Option<LakeConfig>): (errs: seq<string>)
    ensures config.None? ==> errs == [ConfigRequired]
    ensures config.Some? ==> errs == ModuleBazelErrors(config.value.moduleBazel)
  {
    match config
    case None => [ConfigRequired]
    case Some(c) => ModuleBazelErrors(c.moduleBazel)
  }

  /** Every error `validate` collects, in rule order. */
  function LakeErrors(lake: Lake, basePath: string, disk: Disk): seq<string> {
    NameErrors(LakeUtil.ExtractLakeId(lake.name))
    + LocalPathErrorsAsWritten(LakeUtil.GetLocalPath(lake, basePath), Get(basePath), disk)
    + PrefixConsistencyErrors(lake, basePath)
    + ConfigErrors(lake.config)
  }

  /** `validateConfig`, adding to the caller's list. */
  method ValidateConfig(moduleBazel: Option<ModuleBazel>, errors: seq<string>) returns (out: seq<string>)
    ensures out == errors + ModuleBazelErrors(moduleBazel)
  {
    out := errors;
    if moduleBazel.Some? {
      var m := moduleBazel.value;
      if IsBlankJava(m.protobufVersion) {
        out := out + [ProtobufRequired];
      }
      var mid := out;
      if IsBlankJava(m.grpcVersion) {
        out := out + [GrpcRequired];
      }
      assert out == mid + (if IsBlankJava(m.grpcVersion) then [GrpcRequired] else []);
    }
  }

  /** `validate`: nothing when every rule passes; otherwise the exception
      carrying every error in rule order. */
  method Validate(lake: Lake, basePath: string, disk: Disk) returns (thrown: Option<ValidationException>)
    ensures thrown.None? <==> LakeErrors(lake, basePath, disk) == []
    ensures thrown.Some? ==> thrown.value == NewValidationException(Summary, LakeErrors(lake, basePath, disk))
  {
    var errors: seq<string> := [];
    var lakeName := LakeUtil.ExtractLakeId(lake.name);
    if lakeName == "" {
      errors := errors + [NameRequired];
    } else if !IsWord(lakeName) {
      errors := errors + [NameInvalid];
    }
    assert errors == NameErrors(lakeName);
    var localPath := LakeUtil.GetLocalPath(lake, basePath);
    errors := ValidateLocalPath(localPath, Get(basePath), disk, errors);
    errors := errors + PrefixConsistencyErrors(lake, basePath);
    if lake.config.None? {
      errors := errors + [ConfigRequired];
    } else {
      errors := ValidateConfig(lake.config.value.moduleBazel, errors);
    }
    if errors != [] {
      return Some(NewValidationException(Summary, errors));
    }
    return None;
  }

  /** A lake `lakes/{id}` with a word id and a relative prefix, with no
      `lake.yaml` in any directory between the base and the path checked,
      that path not a regular file, and with a config naming its
      `module_bazel` versions, passes every rule. The path checked is the
      lake's own under an absolute base (`AbsoluteBaseAgrees`). */
  lemma WellFormedLakeAccepted(lakeId: string, lake: Lake, basePath: string, disk: Disk)
    requires lake.name == LakeUtil.ToResourceName(lakeId) && IsWord(lakeId)
    requires !StartsWith(lake.lakePrefix, "/")
    requires var checked := CheckedPathAsWritten(LakeUtil.GetLocalPath(lake, basePath), Get(basePath));
      (forall k :: |Get(basePath).names| < k < |checked.names| ==> !HasLakeYaml(disk, Ancestor(checked, k))) &&
      (Exists(disk, checked) ==> IsDirectory(disk, checked))
    requires lake.config.Some? && ModuleBazelErrors(lake.config.value.moduleBazel) == []
    ensures LakeErrors(lake, basePath, disk) == []
  {
    LakeUtil.ExtractLakeIdOfResourceName(lakeId);
    WordFree(lakeId);
    LakeUnderBase(lake, basePath);
    CheckedUnderBase(lake, basePath);
    var checked := CheckedPathAsWritten(LakeUtil.GetLocalPath(lake, basePath), Get(basePath));
    LocalPathAccepted(checked, Get(basePath), disk);
    PrefixConsistencyNeverFires(lake, basePath);
  }

  /** The path checked for a lake below the base lies below the base
      too. */
  lemma CheckedUnderBase(lake: Lake, basePath: string)
    requires var local := LakeUtil.GetLocalPath(lake, basePath);
      StartsWithPath(local, Get(basePath)) && |Get(basePath).names| < |local.names|
    ensures var checked := CheckedPathAsWritten(LakeUtil.GetLocalPath(lake, basePath), Get(basePath));
      StartsWithPath(checked, Get(basePath)) && |Get(basePath).names| < |checked.names|
  {
    var local := LakeUtil.GetLocalPath(lake, basePath);
    if !local.absolute {
      StartsWithResolve(Get(basePath), local);
    }
  }

  /** A lake with a relative prefix and a plain id lies strictly below
      the base. */
  lemma LakeUnderBase(lake: Lake, basePath: string)
    requires !StartsWith(lake.lakePrefix, "/")
    requires IsName(LakeUtil.ExtractLakeId(lake.name))
    ensures var local := LakeUtil.GetLocalPath(lake, basePath);
      StartsWithPath(local, Get(basePath)) && |Get(basePath).names| < |local.names|
  {
    var lakeId := LakeUtil.ExtractLakeId(lake.name);
    var base := Get(basePath);
    BundleUtil.IdPath(lakeId);
    if lake.lakePrefix != "" {
      var p := ResolveString(base, lake.lakePrefix);
      StartsWithResolve(base, Get(lake.lakePrefix));
      StartsWithResolve(p, Get(lakeId));
      StartsWithTrans(ResolveString(p, lakeId), p, base);
    } else {
      StartsWithResolve(base, Get(lakeId));
    }
  }

  /** And a lake that passes every rule has a word id, its checked path
      lies inside the workspace root with no lake above it below the
      root, and it carries a config naming its `module_bazel` versions. */
  lemma AcceptedLakeWellFormed(lake: Lake, basePath: string, disk: Disk)
    requires LakeErrors(lake, basePath, disk) == []
    ensures IsWord(LakeUtil.ExtractLakeId(lake.name))
    ensures var checked := CheckedPathAsWritten(LakeUtil.GetLocalPath(lake, basePath), Get(basePath));
      StartsWithPath(checked, Get(basePath)) &&
      (|Get(basePath).names| < |checked.names| ==>
        forall k :: |Get(basePath).names| < k < |checked.names| ==> !HasLakeYaml(disk, Ancestor(checked, k)))
    ensures lake.config.Some? && ModuleBazelErrors(lake.config.value.moduleBazel) == []
  {
    var checked := CheckedPathAsWritten(LakeUtil.GetLocalPath(lake, basePath), Get(basePath));
    assert NameErrors(LakeUtil.ExtractLakeId(lake.name)) == [];
    assert LocalPathErrors(checked, Get(basePath), disk) == [];
    assert ConfigErrors(lake.config) == [];
    if |Get(basePath).names| < |checked.names| {
      LocalPathAccepted(checked, Get(basePath), disk);
    }
  }
}
