/** The Bazel build runner: the argument list of a Bazel call, the query
    output filter, the bundle target of a path, the deeper-first order of
    bundle builds, the per-target build records and the loop that builds
    each bundle target. The Bazel process is a parameter that maps a
    working directory and an argument list to the output or the message of
    the failure; the bundle discovery is a parameter that maps a directory
    to the bundles found below it; the clock is a parameter `now`. */
module BuildRunner {
  import opened Text
  import opened JavaText
  import opened JavaPaths
  import opened Protos
  import opened BuildModel
  import BundleUtil
  import opened Decimal

  const QueryFailedPrefix := "Bazel query failed: "
  const CleanFailedPrefix := "Failed to clean bazel cache: "
  const BuildFailed := "Build failed"
  const LakeNotSet := "Lake not set in build metadata"
  const KeepGoingFlag := "--keep_going"
  const RemoteCacheFlag := "--remote_cache="
  const UploadFlag := "--remote_upload_local_results=true"
  const ShowProgressFlag := "--show_progress"
  const ProgressIntervalFlag := "--progress_report_interval=10"
  const TargetSuffix := "/..."
  const BuildTargetFailedPrefix := "Bazel build failed for target "
  const CleaningSubPhase := "Cleaning bazel cache"
  const CleanedLine := "Cleaned bazel cache"
  const DiscoveringSubPhase := "Discovering bundle targets"
  const DiscoveringLine := "Discovering bundle targets..."

  /** `RunBuildConfig`. */
  datatype RunBuildConfig = RunBuildConfig(enabled: bool, clean: bool, isolateBundleBuilds: bool, keepGoing: bool)

  /** The runner's configuration properties; an unset property is `None`. */
  datatype RunnerSettings = RunnerSettings(
    bazelOptions: Option<string>, enableRemoteCache: bool, remoteCacheUrl: Option<string>)

  /** `protolake.build.bazel-options` defaults to `--jobs=4`, the remote
      cache to off. */
  const DefaultSettings := RunnerSettings(Some("--jobs=4"), false, None)

  /** The Bazel process: its output, or the message of its failure. */
  type Bazel = (Path, seq<string>) -> Result<string>

  /** The images of the parts under `f` that are not empty, in order. */
  function NonEmptyImages(parts: seq<string>, f: string -> string): (r: seq<string>)
    ensures |r| <= |parts|
    ensures forall i :: 0 <= i < |r| ==> r[i] != ""
  {
    if parts == [] then []
    else
      var t := f(parts[|parts| - 1]);
      NonEmptyImages(parts[..|parts| - 1], f) + (if t != "" then [t] else [])
  }

  lemma {:induction false} NonEmptyImagesMembers(parts: seq<string>, f: string -> string, x: string)
    ensures x in NonEmptyImages(parts, f) <==> x != "" && exists i :: 0 <= i < |parts| && x == f(parts[i])
  {
    if parts != [] {
      var init := parts[..|parts| - 1];
      NonEmptyImagesMembers(init, f, x);
      if x != "" && exists i :: 0 <= i < |parts| && x == f(parts[i]) {
        var i :| 0 <= i < |parts| && x == f(parts[i]);
        if i < |init| {
          assert init[i] == parts[i];
        }
      }
      if x in NonEmptyImages(init, f) {
        var i :| 0 <= i < |init| && x == f(init[i]);
        assert parts[i] == init[i];
      }
    }
  }

  /** The trimmed parts that are not blank, in order. */
  function NonBlankTrimmed(parts: seq<string>): (r: seq<string>)
    ensures |r| <= |parts|
    ensures forall i :: 0 <= i < |r| ==> r[i] != ""
  {
    NonEmptyImages(parts, TrimJava)
  }

  /** A text is kept exactly when it is not empty and is the trimmed form
      of a part. */
  lemma NonBlankTrimmedMembers(parts: seq<string>, x: string)
    ensures x in NonBlankTrimmed(parts) <==> x != "" && exists i :: 0 <= i < |parts| && x == TrimJava(parts[i])
  {
    NonEmptyImagesMembers(parts, TrimJava, x);
  }

  /** A part contributes nothing exactly when it is blank. */
  lemma DroppedIffBlank(part: string)
    ensures NonBlankTrimmed([part]) == [] <==> IsBlankJava(part)
  {
    NonEmptyImagesOne(part, TrimJava);
    TrimJavaEmptyIffBlank(part);
  }

  lemma NonEmptyImagesOne(x: string, f: string -> string)
    ensures NonEmptyImages([x], f) == if f(x) != "" then [f(x)] else []
  {
    assert [x][..0] == [];
  }

  lemma NonEmptyImagesSnoc(parts: seq<string>, f: string -> string, i: int)
    requires 0 <= i < |parts|
    ensures NonEmptyImages(parts[..i + 1], f) ==
      NonEmptyImages(parts[..i], f) + (if f(parts[i]) != "" then [f(parts[i])] else [])
  {
    assert parts[..i + 1][..i] == parts[..i];
    assert parts[..i + 1][i] == parts[i];
  }

  /** Appending the images of the parts under `f` that are not empty,
      one at a time: with `f` the trim, the loops of `query` and of
      `buildBazelArgs` over lines and options. */
  method AppendNonEmptyImages(acc: seq<string>, parts: seq<string>, f: string -> string) returns (r: seq<string>)
    ensures r == acc + NonEmptyImages(parts, f)
  {
    r := acc;
    for i := 0 to |parts|
      invariant r == acc + NonEmptyImages(parts[..i], f)
    {
      NonEmptyImagesSnoc(parts, f, i);
      var line := f(parts[i]);
      if line != "" {
        r := r + [line];
      }
    }
    assert parts[..|parts|] == parts;
  }

  /** `query`: the trimmed lines of the output that are not blank, or the
      failure with its message prefixed. */
  method Query(root: Path, query: string, bazel: Bazel) returns (r: Result<seq<string>>)
    ensures bazel(root, ["query", query]).Err? ==> r == Err(QueryFailedPrefix + bazel(root, ["query", query]).error)
    ensures bazel(root, ["query", query]).Ok? ==> r == Ok(NonBlankTrimmed(SplitJava(bazel(root, ["query", query]).value, "\n")))
  {
    var output := bazel(root, ["query", query]);
    if output.Err? {
      return Err(QueryFailedPrefix + output.error);
    }
    var lines := AppendNonEmptyImages([], SplitJava(output.value, "\n"), TrimJava);
    assert lines == NonBlankTrimmed(SplitJava(output.value, "\n"));
    r := Ok(lines);
  }

  /** The default options, when set and not empty, split at spaces. */
  function DefaultOptionArgs(settings: RunnerSettings): seq<string> {
    match settings.bazelOptions
    case Some(options) => if options != "" then NonBlankTrimmed(SplitJava(options, " ")) else []
    case None => []
  }

  /** The remote cache is used when it is enabled and its URL is set and
      not empty. */
  predicate RemoteCacheOn(settings: RunnerSettings) {
    settings.enableRemoteCache && settings.remoteCacheUrl.Some? && settings.remoteCacheUrl.value != ""
  }

  function CacheArgs(settings: RunnerSettings): seq<string> {
    if RemoteCacheOn(settings) then [RemoteCacheFlag + settings.remoteCacheUrl.value, UploadFlag] else []
  }

  /** The argument list of a Bazel call, as a specification. */
  function BazelArgs(command: string, target: string, config: RunBuildConfig, settings: RunnerSettings): seq<string> {
    Assemble(command, target, DefaultOptionArgs(settings),
      if config.keepGoing then [KeepGoingFlag] else [], CacheArgs(settings))
  }

  /** The command, the target, the options, the keep-going and cache
      flags, and the two progress flags, in that order. */
  function Assemble(command: string, target: string, opts: seq<string>, keep: seq<string>, cache: seq<string>): seq<string> {
    [command, target] + opts + keep + cache + [ShowProgressFlag, ProgressIntervalFlag]
  }

  /** Where each part of an assembled list sits. */
  lemma AssembleLayout(command: string, target: string, opts: seq<string>, keep: seq<string>, cache: seq<string>)
    ensures var args := Assemble(command, target, opts, keep, cache);
      && |args| == 4 + |opts| + |keep| + |cache|
      && args[0] == command && args[1] == target
      && args[2..2 + |opts|] == opts
      && (forall i :: 0 <= i < |keep| ==> args[2 + |opts| + i] == keep[i])
      && (forall i :: 0 <= i < |cache| ==> args[2 + |opts| + |keep| + i] == cache[i])
      && args[|args| - 2..] == [ShowProgressFlag, ProgressIntervalFlag]
  {
    var args := Assemble(command, target, opts, keep, cache);
    var rest := keep + cache + [ShowProgressFlag, ProgressIntervalFlag];
    assert args == [command, target] + opts + rest;
    MiddleSlice([command, target], opts, rest);
    forall i | 0 <= i < |keep| ensures args[2 + |opts| + i] == keep[i] {
      assert args[2 + |opts| + i] == rest[i];
    }
    forall i | 0 <= i < |cache| ensures args[2 + |opts| + |keep| + i] == cache[i] {
      assert args[2 + |opts| + |keep| + i] == rest[|keep| + i];
    }
  }

  /** Where each group of arguments sits: the command and the target
      first, then the `k` options, and the two progress flags last, with
      one keep-going flag and two remote-cache flags between them when
      those are on. */
  lemma BazelArgsLayout(command: string, target: string, config: RunBuildConfig, settings: RunnerSettings)
    ensures var args := BazelArgs(command, target, config, settings);
      var k := |DefaultOptionArgs(settings)|;
      && |args| == 4 + k + (if config.keepGoing then 1 else 0) + (if RemoteCacheOn(settings) then 2 else 0)
      && args[0] == command && args[1] == target
      && args[2..2 + k] == DefaultOptionArgs(settings)
      && args[|args| - 2..] == [ShowProgressFlag, ProgressIntervalFlag]
  {
    var keep: seq<string> := if config.keepGoing then [KeepGoingFlag] else [];
    AssembleLayout(command, target, DefaultOptionArgs(settings), keep, CacheArgs(settings));
  }

  /** The middle part of a concatenation is the slice between the lengths. */
  lemma MiddleSlice(a: seq<string>, b: seq<string>, c: seq<string>)
    ensures (a + b + c)[|a|..|a| + |b|] == b
  {
    assert forall i :: 0 <= i < |b| ==> (a + b + c)[|a| + i] == b[i];
  }

  /** The argument after the options is the keep-going flag exactly when
      it is asked for, and the one after that begins the remote-cache pair
      exactly when the cache is on. */
  lemma BazelArgsFlags(command: string, target: string, config: RunBuildConfig, settings: RunnerSettings)
    ensures var args := BazelArgs(command, target, config, settings);
      var k := |DefaultOptionArgs(settings)|;
      var g := if config.keepGoing then 1 else 0;
      && (config.keepGoing <==> args[2 + k] == KeepGoingFlag)
      && (RemoteCacheOn(settings) <==> StartsWith(args[2 + k + g], RemoteCacheFlag))
      && (RemoteCacheOn(settings) ==> args[3 + k + g] == UploadFlag)
  {
    var opts := DefaultOptionArgs(settings);
    var keep: seq<string> := if config.keepGoing then [KeepGoingFlag] else [];
    var tail := keep + CacheArgs(settings) + [ShowProgressFlag, ProgressIntervalFlag];
    var args := [command, target] + opts + tail;
    assert args == BazelArgs(command, target, config, settings);
    var k := |opts|;
    var g := |keep|;
    assert args[2 + k] == tail[0] && args[2 + k + g] == tail[g];
    if RemoteCacheOn(settings) {
      var flag := RemoteCacheFlag + settings.remoteCacheUrl.value;
      assert tail[g] == flag && tail[g + 1] == UploadFlag && args[3 + k + g] == tail[g + 1];
      assert flag[..|RemoteCacheFlag|] == RemoteCacheFlag;
    } else {
      assert tail[g] == ShowProgressFlag;
      assert ShowProgressFlag[2] != RemoteCacheFlag[2];
    }
    if !config.keepGoing {
      assert tail[0] == (if RemoteCacheOn(settings) then RemoteCacheFlag + settings.remoteCacheUrl.value else ShowProgressFlag);
      assert tail[0][2] != KeepGoingFlag[2];
    }
  }

  /** `buildBazelArgs`: the list built one argument at a time. */
  method BuildBazelArgs(command: string, target: string, config: RunBuildConfig, settings: RunnerSettings)
    returns (args: seq<string>)
    ensures args == BazelArgs(command, target, config, settings)
  {
    args := [command, target];
    if settings.bazelOptions.Some? && settings.bazelOptions.value != "" {
      args := AppendNonEmptyImages(args, SplitJava(settings.bazelOptions.value, " "), TrimJava);
    }
    if config.keepGoing {
      args := args + [KeepGoingFlag];
    }
    if settings.enableRemoteCache && settings.remoteCacheUrl.Some? && settings.remoteCacheUrl.value != "" {
      args := args + [RemoteCacheFlag + settings.remoteCacheUrl.value];
      args := args + [UploadFlag];
    }
    args := args + [ShowProgressFlag];
    args := args + [ProgressIntervalFlag];
  }

  /** `getBazelTargetFromBundlePath`: every package below the path. */
  function BazelTarget(path: string): (t: string)
    ensures StartsWith(t, "//") && EndsWith(t, TargetSuffix) && |t| == |path| + 6
  {
    var t := "//" + path + TargetSuffix;
    assert t[..2] == "//" && t[|t| - 4..] == TargetSuffix;
    t
  }

  /** The path a target was made from. */
  function BundlePathOf(t: string): string
    requires |t| >= 6
  {
    t[2..|t| - 4]
  }

  lemma BazelTargetInverse(path: string)
    ensures BundlePathOf(BazelTarget(path)) == path
  {
    var t := BazelTarget(path);
    assert t == "//" + path + TargetSuffix;
    assert t[2..|t| - 4] == path;
  }

  /** Different bundle paths give different targets. */
  lemma BazelTargetInjective(p: string, q: string)
    requires BazelTarget(p) == BazelTarget(q)
    ensures p == q
  {
    BazelTargetInverse(p);
    BazelTargetInverse(q);
  }

  /** The number of `/`-separated segments `split("/")` reports. */
  function Depth(path: string): nat {
    |SplitJava(path, "/")|
  }

  /** Ordered by descending `key`. */
  predicate Descending(s: seq<string>, key: string -> nat) {
    forall i, j :: 0 <= i < j < |s| ==> key(s[i]) >= key(s[j])
  }

  /** Places `x` before the first element whose key is not above its
      own. */
  function InsertBy(x: string, s: seq<string>, key: string -> nat): (r: seq<string>)
    requires Descending(s, key)
    ensures Descending(r, key)
    ensures multiset(r) == multiset(s) + multiset{x}
    ensures r != [] && (r[0] == x || (s != [] && r[0] == s[0]))
  {
    if s == [] || key(x) >= key(s[0]) then [x] + s
    else
      var rest := InsertBy(x, s[1..], key);
      assert s == [s[0]] + s[1..];
      HeadAbove(s, x, rest, key);
      [s[0]] + rest
  }

  /** The head of a descending list, put before the insertion of a lower
      key into its tail, keeps the order. */
  lemma HeadAbove(s: seq<string>, x: string, rest: seq<string>, key: string -> nat)
    requires Descending(s, key) && s != [] && key(x) < key(s[0])
    requires Descending(rest, key) && multiset(rest) == multiset(s[1..]) + multiset{x}
    ensures Descending([s[0]] + rest, key)
  {
    forall j | 0 <= j < |rest| ensures key(s[0]) >= key(rest[j]) {
      assert rest[j] in multiset(rest);
      if rest[j] != x {
        assert rest[j] in multiset(s[1..]);
        var k :| 0 <= k < |s[1..]| && s[1..][k] == rest[j];
        assert s[k + 1] == rest[j];
      }
    }
    var r := [s[0]] + rest;
    assert forall j :: 0 < j < |r| ==> r[j] == rest[j - 1];
  }

  /** A stable sort by descending key. */
  function SortBy(s: seq<string>, key: string -> nat): (r: seq<string>)
    ensures Descending(r, key)
    ensures multiset(r) == multiset(s)
  {
    if s == [] then []
    else
      assert s == [s[0]] + s[1..];
      InsertBy(s[0], SortBy(s[1..], key), key)
  }

  /** The elements with one key, in order. */
  function WithKey(s: seq<string>, key: string -> nat, d: nat): seq<string> {
    if s == [] then [] else (if key(s[0]) == d then [s[0]] else []) + WithKey(s[1..], key, d)
  }

  lemma WithKeyCons(a: string, s: seq<string>, key: string -> nat, d: nat)
    ensures WithKey([a] + s, key, d) == (if key(a) == d then [a] else []) + WithKey(s, key, d)
  {
    assert ([a] + s)[1..] == s;
  }

  lemma {:induction false} InsertWithKey(x: string, s: seq<string>, key: string -> nat, d: nat)
    requires Descending(s, key)
    ensures WithKey(InsertBy(x, s, key), key, d) == (if key(x) == d then [x] else []) + WithKey(s, key, d)
  {
    if s == [] || key(x) >= key(s[0]) {
      WithKeyCons(x, s, key, d);
    } else {
      var own: seq<string> := if key(x) == d then [x] else [];
      var head: seq<string> := if key(s[0]) == d then [s[0]] else [];
      var rest := InsertBy(x, s[1..], key);
      assert WithKey(InsertBy(x, s, key), key, d) == head + WithKey(rest, key, d) by {
        WithKeyCons(s[0], rest, key, d);
      }
      assert WithKey(s, key, d) == head + WithKey(s[1..], key, d) by {
        assert s == [s[0]] + s[1..];
        WithKeyCons(s[0], s[1..], key, d);
      }
      assert WithKey(rest, key, d) == own + WithKey(s[1..], key, d) by {
        InsertWithKey(x, s[1..], key, d);
      }
      assert head == [] || own == [];
    }
  }

  /** The sort is stable: the elements with each key keep their order. */
  lemma {:induction false} SortByStable(s: seq<string>, key: string -> nat, d: nat)
    ensures WithKey(SortBy(s, key), key, d) == WithKey(s, key, d)
  {
    if s != [] {
      SortByStable(s[1..], key, d);
      InsertWithKey(s[0], SortBy(s[1..], key), key, d);
    }
  }

  /** `bundleTargets.sort` with the deeper-first comparator: a `List.sort`,
      which is stable, by descending segment count. */
  function SortByDepth(paths: seq<string>): (r: seq<string>)
    ensures Descending(r, Depth) && multiset(r) == multiset(paths)
    ensures forall d: nat :: WithKey(r, Depth, d) == WithKey(paths, Depth, d)
  {
    var r := SortBy(paths, Depth);
    assert forall d: nat :: WithKey(r, Depth, d) == WithKey(paths, Depth, d) by {
      forall d: nat ensures WithKey(r, Depth, d) == WithKey(paths, Depth, d) {
        SortByStable(paths, Depth, d);
      }
    }
    r
  }

  /** `createTargetBuildInfo`. */
  function CreateTargetBuildInfo(target: string, version: string, status: TargetStatus, now: int): (r: TargetBuildInfo)
    ensures r.target == target && r.version == version && r.status == status
    ensures r.startTime.Some? <==> status == TargetBuilding
    ensures r.endTime.None? && r.errorMessage == "" && r.buildLogs == [] && r.artifacts == []
  {
    TargetBuildInfo(target, version, status, if status == TargetBuilding then Some(now) else None,
                    None, "", [], [])
  }

  /** The statuses that end a target's build. */
  predicate Terminal(s: TargetStatus) {
    s == TargetPublished || s == TargetFailed || s == TargetSkipped
  }

  /** `updateTargetBuildInfo`. */
  function UpdateTargetBuildInfo(info: TargetBuildInfo, status: TargetStatus, now: int): (r: TargetBuildInfo)
    ensures r.status == status
    ensures info.startTime.Some? ==> r.startTime == info.startTime
    ensures info.startTime.None? ==> (r.startTime.Some? <==> status == TargetBuilding)
    ensures info.endTime.Some? ==> r.endTime == info.endTime
    ensures info.endTime.None? ==> (r.endTime.Some? <==> Terminal(status))
    ensures r.(status := info.status, startTime := info.startTime, endTime := info.endTime) == info
  {
    info.(status := status,
          startTime := if status == TargetBuilding && info.startTime.None? then Some(now) else info.startTime,
          endTime := if Terminal(status) && info.endTime.None? then Some(now) else info.endTime)
  }

  /** A status change with its clock reading. */
  datatype Step = Step(status: TargetStatus, now: int)

  function ApplySteps(info: TargetBuildInfo, steps: seq<Step>): TargetBuildInfo
    decreases |steps|
  {
    if steps == [] then info
    else ApplySteps(UpdateTargetBuildInfo(info, steps[0].status, steps[0].now), steps[1..])
  }

  /** Once set, the start and end times never change again. */
  lemma {:induction false} TimesSetOnce(info: TargetBuildInfo, steps: seq<Step>)
    ensures info.startTime.Some? ==> ApplySteps(info, steps).startTime == info.startTime
    ensures info.endTime.Some? ==> ApplySteps(info, steps).endTime == info.endTime
    ensures ApplySteps(info, steps).target == info.target && ApplySteps(info, steps).version == info.version
    decreases |steps|
  {
    if steps != [] {
      TimesSetOnce(UpdateTargetBuildInfo(info, steps[0].status, steps[0].now), steps[1..]);
    }
  }

  /** A pending target that is built and then published carries the
      clock readings of those two steps, so with a clock that does not run
      backwards it never ends before it starts. */
  lemma PendingLifecycle(target: string, version: string, t0: int, t1: int, t2: int, last: TargetStatus)
    requires Terminal(last)
    ensures var info := ApplySteps(CreateTargetBuildInfo(target, version, TargetPending, t0),
                                   [Step(TargetBuilding, t1), Step(last, t2)]);
      info.status == last && info.startTime == Some(t1) && info.endTime == Some(t2)
  {
    var i0 := CreateTargetBuildInfo(target, version, TargetPending, t0);
    var steps := [Step(TargetBuilding, t1), Step(last, t2)];
    var i1 := UpdateTargetBuildInfo(i0, TargetBuilding, t1);
    var i2 := UpdateTargetBuildInfo(i1, last, t2);
    assert steps[1..][1..] == [];
    assert ApplySteps(i0, steps) == ApplySteps(i1, steps[1..]) == ApplySteps(i2, []);
  }

  /** What the runner works with: the workspace root, the build
      configuration, its own settings, the Bazel process, the bundle
      discovery and the clock reading. */
  datatype Env = Env(
    root: Path, config: RunBuildConfig, settings: RunnerSettings,
    bazel: Bazel, discover: Path -> seq<Bundle>, now: int)

  /** `clean`: `bazel clean --expunge`; its failure, prefixed. */
  function CleanError(env: Env): Option<string> {
    var out := env.bazel(env.root, ["clean", "--expunge"]);
    if out.Err? then Some(CleanFailedPrefix + out.error) else None
  }

  /** `buildTargetDirectlyImpl`: `bazel build` of one target; Bazel's
      output, or its failure prefixed with the target. */
  function RunBuild(env: Env, target: string): Result<string> {
    var out := env.bazel(env.root, BazelArgs("build", target, env.config, env.settings));
    if out.Ok? then Ok(out.value) else Err(BuildTargetFailedPrefix + target + ": " + out.error)
  }

  /** A target record once its build is over: published with Bazel's
      output as its last log, or failed with the error; started and
      ended. */
  predicate Settled(info: TargetBuildInfo, r: Result<string>) {
    && info.startTime.Some? && info.endTime.Some?
    && (r.Ok? ==> info.status == TargetPublished && info.buildLogs != [] && info.buildLogs[|info.buildLogs| - 1] == r.value)
    && (r.Err? ==> info.status == TargetFailed && info.errorMessage == r.error)
  }

  /** The table holds a record for the target, settled by its build. */
  predicate SettledIn(build: string -> Result<string>, tb: seq<TargetEntry>, key: string) {
    Lookup(tb, key).Some? && Settled(Lookup(tb, key).value, build(key))
  }

  /** The record an outcome leaves on a building target. */
  function Settle(info: TargetBuildInfo, r: Result<string>, now: int): (s: TargetBuildInfo)
    requires info.startTime.Some?
    ensures Settled(s, r)
    ensures s.target == info.target && s.version == info.version && s.startTime == info.startTime
  {
    if r.Ok? then UpdateTargetBuildInfo(info, TargetPublished, now).(buildLogs := info.buildLogs + [r.value])
    else UpdateTargetBuildInfo(info, TargetFailed, now).(errorMessage := r.error)
  }

  /** The log lines of one target in the bundle loop. */
  function TargetLines(key: string, r: Result<string>): seq<string> {
    ["Building: " + key] +
    (if r.Ok? then ["Successfully built: " + key] else ["Failed to build " + key + ": " + r.error + " (continuing)"])
  }

  /** The log lines of the bundle loop: two per target, its start and its
      outcome. */
  function LoopLines(build: string -> Result<string>, keys: seq<string>): (lines: seq<string>)
    ensures |lines| == 2 * |keys|
  {
    if keys == [] then []
    else LoopLines(build, keys[..|keys| - 1]) + TargetLines(keys[|keys| - 1], build(keys[|keys| - 1]))
  }

  /** Line `2i` announces target `i` and line `2i + 1` reports how it
      ended. */
  lemma {:induction false} LoopLinesAt(build: string -> Result<string>, keys: seq<string>, i: int)
    requires 0 <= i < |keys|
    ensures LoopLines(build, keys)[2 * i] == "Building: " + keys[i]
    ensures LoopLines(build, keys)[2 * i + 1] ==
      if build(keys[i]).Ok? then "Successfully built: " + keys[i]
      else "Failed to build " + keys[i] + ": " + build(keys[i]).error + " (continuing)"
  {
    var init := keys[..|keys| - 1];
    if i < |init| {
      LoopLinesAt(build, init, i);
      assert init[i] == keys[i];
    }
  }

  lemma LoopLinesSnoc(build: string -> Result<string>, keys: seq<string>, i: int)
    requires 0 <= i < |keys|
    ensures LoopLines(build, keys[..i + 1]) == LoopLines(build, keys[..i]) + TargetLines(keys[i], build(keys[i]))
  {
    assert keys[..i + 1][..i] == keys[..i];
  }

  lemma AppendAssoc(a: seq<string>, b: seq<string>, c: seq<string>)
    ensures a + (b + c) == a + b + c
  {
  }

  lemma PrefixSnoc(keys: seq<string>, i: int)
    requires 0 <= i < |keys|
    ensures forall k :: k in keys[..i + 1] <==> k in keys[..i] || k == keys[i]
  {
    assert keys[..i + 1] == keys[..i] + [keys[i]];
  }

  /** The workspace-relative path of each bundle, in order. */
  function RelativePaths(lake: Lake, bundles: seq<Bundle>): (paths: seq<string>)
    ensures |paths| == |bundles|
    ensures forall i :: 0 <= i < |bundles| ==> paths[i] == BundleUtil.GetWorkspaceRelativePath(lake, bundles[i])
  {
    seq(|bundles|, i requires 0 <= i < |bundles| => BundleUtil.GetWorkspaceRelativePath(lake, bundles[i]))
  }

  /** `getBundleTargetPathsForTargetPath`: the bundles found below the
      target path, as workspace-relative paths; a metadata without a lake
      is an error, reported after the discovery. */
  method GetBundleTargetPaths(env: Env, targetPath: string, metadata: BuildOperationMetadata)
    returns (r: Result<seq<string>>)
    ensures metadata.lake.None? ==> r == Err(LakeNotSet)
    ensures metadata.lake.Some? ==> r == Ok(RelativePaths(metadata.lake.value, env.discover(ResolveString(env.root, targetPath))))
  {
    var bundles := env.discover(ResolveString(env.root, targetPath));
    if metadata.lake.None? {
      return Err(LakeNotSet);
    }
    var paths := RelativePathsOf(metadata.lake.value, bundles);
    r := Ok(paths);
  }

  /** The loop of `getBundleTargetPathsForTargetPath` that computes each
      bundle's workspace-relative path. */
  method RelativePathsOf(lake: Lake, bundles: seq<Bundle>) returns (paths: seq<string>)
    ensures paths == RelativePaths(lake, bundles)
  {
    paths := [];
    for i := 0 to |bundles|
      invariant |paths| == i
      invariant forall j :: 0 <= j < i ==> paths[j] == BundleUtil.GetWorkspaceRelativePath(lake, bundles[j])
    {
      paths := paths + [BundleUtil.GetWorkspaceRelativePath(lake, bundles[i])];
    }
  }

  /** The bundle targets of some paths, in order. */
  function Targets(paths: seq<string>): (keys: seq<string>)
    ensures |keys| == |paths|
    ensures forall i :: 0 <= i < |paths| ==> keys[i] == BazelTarget(paths[i])
  {
    seq(|paths|, i requires 0 <= i < |paths| => BazelTarget(paths[i]))
  }

  /** The targets the bundle loop builds: those of the bundles below the
      target path, deeper first. */
  function BundleTargets(env: Env, targetPath: string, lake: Lake): seq<string> {
    Targets(SortByDepth(RelativePaths(lake, env.discover(ResolveString(env.root, targetPath)))))
  }

  /** The first loop of `buildBundlesIndividually`: every target is put in
      the table as a new pending record. */
  method InitPending(tb0: seq<TargetEntry>, keys: seq<string>, branch: string, now: int)
    returns (tb: seq<TargetEntry>)
    requires DistinctKeys(tb0)
    ensures DistinctKeys(tb)
    ensures forall k :: k in Keys(tb) <==> k in keys || k in Keys(tb0)
    ensures forall k :: k in keys ==> Lookup(tb, k) == Some(CreateTargetBuildInfo(k, branch, TargetPending, now))
    ensures forall k :: k !in keys ==> Lookup(tb, k) == Lookup(tb0, k)
  {
    tb := tb0;
    for i := 0 to |keys|
      invariant DistinctKeys(tb)
      invariant forall k :: k in Keys(tb) <==> k in keys[..i] || k in Keys(tb0)
      invariant forall k :: k in keys[..i] ==> Lookup(tb, k) == Some(CreateTargetBuildInfo(k, branch, TargetPending, now))
      invariant forall k :: k !in keys[..i] ==> Lookup(tb, k) == Lookup(tb0, k)
    {
      var info := CreateTargetBuildInfo(keys[i], branch, TargetPending, now);
      PutDistinct(tb, keys[i], info);
      PutLookupAll(tb, keys[i], info);
      assert keys[..i + 1] == keys[..i] + [keys[i]];
      tb := Put(tb, keys[i], info);
    }
    assert keys[..|keys|] == keys;
  }

  /** One pass of the bundle loop: the target is marked building, built,
      and settled by the outcome; no other record changes. */
  method BuildOne(build: string -> Result<string>, now: int, tb0: seq<TargetEntry>, key: string)
    returns (tb: seq<TargetEntry>, r: Result<string>)
    requires DistinctKeys(tb0) && key in Keys(tb0)
    ensures r == build(key)
    ensures DistinctKeys(tb)
    ensures Keys(tb) == Keys(tb0)
    ensures SettledIn(build, tb, key)
    ensures forall k :: k != key ==> Lookup(tb, k) == Lookup(tb0, k)
  {
    var info := UpdateTargetBuildInfo(Lookup(tb0, key).value, TargetBuilding, now);
    PutDistinct(tb0, key, info);
    PutLookupAll(tb0, key, info);
    PutExistingKeys(tb0, key, info);
    var building := Put(tb0, key, info);
    r := build(key);
    var done := Settle(info, r, now);
    PutDistinct(building, key, done);
    PutLookupAll(building, key, done);
    PutExistingKeys(building, key, done);
    tb := Put(building, key, done);
  }

  /** The table after the first `n` targets: the same keys, the first
      `n` targets settled by their builds, the records of all other keys
      as they were. */
  ghost predicate TableAfter(build: string -> Result<string>, keys: seq<string>, n: nat,
                             tb0: seq<TargetEntry>, tb: seq<TargetEntry>)
    requires n <= |keys|
  {
    && DistinctKeys(tb)
    && Keys(tb) == Keys(tb0)
    && (forall k :: k !in keys ==> Lookup(tb, k) == Lookup(tb0, k))
    && (forall j :: 0 <= j < n ==> SettledIn(build, tb, keys[j]))
  }

  /** Building target `i` extends the table's progress by one. */
  lemma TableStep(build: string -> Result<string>, keys: seq<string>, i: nat,
                  tb0: seq<TargetEntry>, tb: seq<TargetEntry>, tb': seq<TargetEntry>)
    requires i < |keys| && TableAfter(build, keys, i, tb0, tb)
    requires DistinctKeys(tb') && Keys(tb') == Keys(tb)
    requires SettledIn(build, tb', keys[i])
    requires forall k :: k != keys[i] ==> Lookup(tb', k) == Lookup(tb, k)
    ensures TableAfter(build, keys, i + 1, tb0, tb')
  {
    StepOutside(keys, i, tb0, tb, tb');
    StepSettled(build, keys, i, tb, tb');
  }

  lemma StepOutside(keys: seq<string>, i: nat, tb0: seq<TargetEntry>, tb: seq<TargetEntry>, tb': seq<TargetEntry>)
    requires i < |keys|
    requires forall k :: k !in keys ==> Lookup(tb, k) == Lookup(tb0, k)
    requires forall k :: k != keys[i] ==> Lookup(tb', k) == Lookup(tb, k)
    ensures forall k :: k !in keys ==> Lookup(tb', k) == Lookup(tb0, k)
  {
    assert keys[i] in keys;
  }

  lemma StepSettled(build: string -> Result<string>, keys: seq<string>, i: nat, tb: seq<TargetEntry>, tb': seq<TargetEntry>)
    requires i < |keys|
    requires forall j :: 0 <= j < i ==> SettledIn(build, tb, keys[j])
    requires SettledIn(build, tb', keys[i])
    requires forall k :: k != keys[i] ==> Lookup(tb', k) == Lookup(tb, k)
    ensures forall j :: 0 <= j < i + 1 ==> SettledIn(build, tb', keys[j])
  {
    forall j | 0 <= j < i ensures SettledIn(build, tb', keys[j]) {
      if keys[j] != keys[i] {
        assert Lookup(tb', keys[j]) == Lookup(tb, keys[j]);
      }
    }
  }

  /** Pass `i` of the bundle loop, with its log lines and sub-phase. */
  method BuildStep(build: string -> Result<string>, now: int, keys: seq<string>, i: nat,
                   tb0: seq<TargetEntry>, tb: seq<TargetEntry>, logs0: seq<string>, logs: seq<string>)
    returns (tb': seq<TargetEntry>, logs': seq<string>, subPhase: string, r: Result<string>)
    requires i < |keys| && TableAfter(build, keys, i, tb0, tb)
    requires keys[i] in Keys(tb0)
    requires logs == logs0 + LoopLines(build, keys[..i])
    ensures r == build(keys[i])
    ensures TableAfter(build, keys, i + 1, tb0, tb')
    ensures logs' == logs0 + LoopLines(build, keys[..i + 1])
    ensures subPhase == "Building " + keys[i]
  {
    var key := keys[i];
    subPhase := "Building " + key;
    tb', r := BuildOne(build, now, tb, key);
    TableStep(build, keys, i, tb0, tb, tb');
    LoopLinesSnoc(build, keys, i);
    AppendAssoc(logs0, LoopLines(build, keys[..i]), TargetLines(key, r));
    logs' := logs + TargetLines(key, r);
  }

  /** The second loop of `buildBundlesIndividually`, stopped after `n`
      passes: at the end, or at the first failure when not keeping
      going. */
  method BuildLoop(build: string -> Result<string>, keepGoing: bool, now: int, keys: seq<string>,
                   tb0: seq<TargetEntry>, logs0: seq<string>, sub0: string)
    returns (tb: seq<TargetEntry>, logs: seq<string>, subPhase: string, failure: Option<string>, n: nat)
    requires DistinctKeys(tb0)
    requires forall k :: k in keys ==> k in Keys(tb0)
    ensures n <= |keys| && TableAfter(build, keys, n, tb0, tb)
    ensures failure.None? ==> n == |keys|
    ensures failure.None? && !keepGoing ==> forall j :: 0 <= j < n ==> build(keys[j]).Ok?
    ensures failure.Some? ==> !keepGoing && 0 < n && build(keys[n - 1]) == Err(failure.value)
    ensures failure.Some? ==> forall j :: 0 <= j < n - 1 ==> build(keys[j]).Ok?
    ensures failure.None? ==> logs == logs0 + LoopLines(build, keys[..n])
    ensures failure.None? ==> subPhase == if n == 0 then sub0 else "Building " + keys[n - 1]
  {
    tb, logs, subPhase, failure := tb0, logs0, sub0, None;
    assert keys[..0] == [];
    n := 0;
    while n < |keys|
      invariant 0 <= n <= |keys|
      invariant TableAfter(build, keys, n, tb0, tb)
      invariant !keepGoing ==> forall j :: 0 <= j < n ==> build(keys[j]).Ok?
      invariant logs == logs0 + LoopLines(build, keys[..n])
      invariant subPhase == if n == 0 then sub0 else "Building " + keys[n - 1]
    {
      var r;
      tb, logs, subPhase, r := BuildStep(build, now, keys, n, tb0, tb, logs0, logs);
      n := n + 1;
      if r.Err? && !keepGoing {
        failure := Some(r.error);
        return;
      }
    }
  }

  /** The second loop of `buildBundlesIndividually`, with `build` the
      outcome of each target's build. Without keep-going, the first
      failure ends the loop and is returned; with it, every target is
      built whatever the others do. */
  method BuildEach(build: string -> Result<string>, keepGoing: bool, now: int, keys: seq<string>,
                   tb0: seq<TargetEntry>, logs0: seq<string>, sub0: string)
    returns (tb: seq<TargetEntry>, logs: seq<string>, subPhase: string, failure: Option<string>)
    requires DistinctKeys(tb0)
    requires forall k :: k in keys ==> k in Keys(tb0)
    ensures DistinctKeys(tb)
    ensures Keys(tb) == Keys(tb0)
    ensures forall k :: k !in keys ==> Lookup(tb, k) == Lookup(tb0, k)
    ensures failure.None? <==> keepGoing || forall i :: 0 <= i < |keys| ==> build(keys[i]).Ok?
    ensures failure.Some? ==>
      exists i :: 0 <= i < |keys| && build(keys[i]) == Err(failure.value)
        && forall j :: 0 <= j < i ==> build(keys[j]).Ok?
    ensures failure.None? ==> forall k :: k in keys ==> SettledIn(build, tb, k)
    ensures failure.None? ==> logs == logs0 + LoopLines(build, keys)
    ensures failure.None? ==> subPhase == if keys == [] then sub0 else "Building " + keys[|keys| - 1]
  {
    var n;
    tb, logs, subPhase, failure, n := BuildLoop(build, keepGoing, now, keys, tb0, logs0, sub0);
    if failure.None? {
      assert keys[..n] == keys;
    } else {
      assert build(keys[n - 1]).Err?;
    }
  }

  /** Each target's build outcome in these surroundings. */
  function Outcomes(env: Env): string -> Result<string> {
    k => RunBuild(env, k)
  }

  /** The target table, log lines and sub-phase a build leaves. */
  datatype Progress = Progress(targetBuilds: seq<TargetEntry>, logs: seq<string>, subPhase: string)

  /** The loop's table put over the metadata's: the loop's lookups, and so
      its settled targets. */
  lemma PutAllSettled(build: string -> Result<string>, keys: seq<string>, m: seq<TargetEntry>, tb: seq<TargetEntry>)
    requires DistinctKeys(m) && DistinctKeys(tb)
    requires forall k :: k in Keys(m) ==> k in Keys(tb)
    requires forall k :: k in keys ==> SettledIn(build, tb, k)
    ensures DistinctKeys(PutAll(m, tb))
    ensures forall k :: Lookup(PutAll(m, tb), k) == Lookup(tb, k)
    ensures forall k :: k in keys ==> SettledIn(build, PutAll(m, tb), k)
  {
    PutAllOverCopy(m, tb);
    PutAllDistinct(m, tb);
  }

  /** What a successful bundle loop over `keys` leaves: every target
      settled by its own build, every other record as it was, the count
      and each target's lines logged, and the last target's sub-phase. */
  ghost predicate KeysBuilt(build: string -> Result<string>, keys: seq<string>, metadata: BuildOperationMetadata,
                            logs0: seq<string>, p: Progress)
  {
    && DistinctKeys(p.targetBuilds)
    && (forall k :: k in keys ==> SettledIn(build, p.targetBuilds, k))
    && (forall k :: k !in keys ==> Lookup(p.targetBuilds, k) == Lookup(metadata.targetBuilds, k))
    && p.logs == logs0 + ["Found " + DecimalOf(|keys|) + " bundle targets"] + LoopLines(build, keys)
    && p.subPhase == if keys == [] then DiscoveringSubPhase else "Building " + keys[|keys| - 1]
  }

  /** The part of `buildBundlesIndividually` after the discovery and the
      ordering: the count is logged, every target is entered as pending,
      then built in order. */
  method BuildKeys(build: string -> Result<string>, keepGoing: bool, now: int, keys: seq<string>,
                   metadata: BuildOperationMetadata, logs0: seq<string>)
    returns (r: Result<Progress>)
    requires DistinctKeys(metadata.targetBuilds)
    ensures r.Ok? <==> keepGoing || forall i :: 0 <= i < |keys| ==> build(keys[i]).Ok?
    ensures r.Ok? ==> KeysBuilt(build, keys, metadata, logs0, r.value)
  {
    var logs := logs0 + ["Found " + DecimalOf(|keys|) + " bundle targets"];
    var tb := InitPending(metadata.targetBuilds, keys, metadata.branch, now);
    var tb', logs', sub', failure := BuildEach(build, keepGoing, now, keys, tb, logs, DiscoveringSubPhase);
    if failure.Some? {
      return Err(failure.value);
    }
    PutAllSettled(build, keys, metadata.targetBuilds, tb');
    r := Ok(Progress(PutAll(metadata.targetBuilds, tb'), logs', sub'));
  }

  /** `buildBundlesIndividually`, with `build` each target's build
      outcome: discovers the bundles below the target path, orders them
      deeper first, enters each as pending, then builds each in that
      order. The result's table is the metadata's with the
      loop's table put over it. */
  method BuildBundlesIndividually(env: Env, build: string -> Result<string>, targetPath: string,
                                  metadata: BuildOperationMetadata, logs0: seq<string>)
    returns (r: Result<Progress>)
    requires DistinctKeys(metadata.targetBuilds)
    ensures metadata.lake.None? ==> r == Err(LakeNotSet)
    ensures metadata.lake.Some? ==>
      var keys := BundleTargets(env, targetPath, metadata.lake.value);
      && (r.Ok? <==> env.config.keepGoing || forall i :: 0 <= i < |keys| ==> build(keys[i]).Ok?)
      && (r.Ok? ==> KeysBuilt(build, keys, metadata, logs0 + [DiscoveringLine], r.value))
  {
    var found := GetBundleTargetPaths(env, targetPath, metadata);
    if found.Err? {
      return Err(found.error);
    }
    var keys := Targets(SortByDepth(found.value));
    assert keys == BundleTargets(env, targetPath, metadata.lake.value);
    r := BuildKeys(build, env.config.keepGoing, env.now, keys, metadata, logs0 + [DiscoveringLine]);
  }

  /** What a successful direct build of `key` leaves: a published record
      of the clock reading with the build's output as its only log, every
      other record as it was, one more log line, the sub-phase kept. */
  ghost predicate DirectBuilt(build: string -> Result<string>, now: int, key: string, metadata: BuildOperationMetadata,
                              logs0: seq<string>, sub0: string, p: Progress)
    requires build(key).Ok?
  {
    && DistinctKeys(p.targetBuilds)
    && Lookup(p.targetBuilds, key) ==
         Some(TargetBuildInfo(key, metadata.branch, TargetPublished, Some(now), Some(now), "", [build(key).value], []))
    && (forall k :: k != key ==> Lookup(p.targetBuilds, k) == Lookup(metadata.targetBuilds, k))
    && p.logs == logs0 + ["Successfully built: " + key]
    && p.subPhase == sub0
  }

  /** `buildTargetDirectly`, with `build` the outcome of the target's
      build: a fresh building record for the target replaces any earlier
      one, and is settled by the outcome. */
  method BuildTargetDirectly(build: string -> Result<string>, now: int, key: string,
                             metadata: BuildOperationMetadata, logs0: seq<string>, sub0: string)
    returns (r: Result<Progress>)
    requires DistinctKeys(metadata.targetBuilds)
    ensures r.Ok? <==> build(key).Ok?
    ensures r.Err? ==> build(key).Err? && r.error == build(key).error
    ensures r.Ok? ==> DirectBuilt(build, now, key, metadata, logs0, sub0, r.value)
  {
    var info := CreateTargetBuildInfo(key, metadata.branch, TargetBuilding, now);
    var tb := Put(metadata.targetBuilds, key, info);
    var out := build(key);
    if out.Err? {
      return Err(out.error);
    }
    var done := Settle(info, out, now);
    assert done == TargetBuildInfo(key, metadata.branch, TargetPublished, Some(now), Some(now), "", [out.value], []);
    DirectTable(metadata.targetBuilds, key, info, done);
    tb := Put(tb, key, done);
    r := Ok(Progress(PutAll(metadata.targetBuilds, tb), logs0 + ["Successfully built: " + key], sub0));
  }

  /** The two puts of the direct build, and the copy put back over the
      metadata's table. */
  lemma DirectTable(m: seq<TargetEntry>, key: string, info: TargetBuildInfo, done: TargetBuildInfo)
    requires DistinctKeys(m)
    ensures var tb := Put(Put(m, key, info), key, done);
      && DistinctKeys(PutAll(m, tb))
      && Lookup(PutAll(m, tb), key) == Some(done)
      && forall k :: k != key ==> Lookup(PutAll(m, tb), k) == Lookup(m, k)
  {
    var tb1 := Put(m, key, info);
    PutDistinct(m, key, info);
    PutLookupAll(m, key, info);
    var tb := Put(tb1, key, done);
    PutDistinct(tb1, key, done);
    PutLookupAll(tb1, key, done);
    assert forall k :: k in Keys(m) ==> k in Keys(tb);
    PutAllOverCopy(m, tb);
    PutAllDistinct(m, tb);
  }

  /** Whether `buildTarget` returns normally, for an enabled build: the
      cache is cleaned when asked, and then either the bundle loop finds a
      lake and builds every target (or keeps going), or the direct build
      of the target succeeds. */
  predicate BuildSucceeds(env: Env, target: string, metadata: BuildOperationMetadata) {
    && (env.config.clean ==> CleanError(env).None?)
    && if env.config.isolateBundleBuilds then
         && metadata.lake.Some?
         && var keys := BundleTargets(env, target, metadata.lake.value);
            env.config.keepGoing || forall i :: 0 <= i < |keys| ==> Outcomes(env)(keys[i]).Ok?
       else Outcomes(env)(BazelTarget(target)).Ok?
  }

  /** The log lines and sub-phase the optional clean leaves. */
  function CleanLines(config: RunBuildConfig): seq<string> {
    if config.clean then [CleanedLine] else []
  }

  function CleanSubPhase(config: RunBuildConfig): string {
    if config.clean then CleaningSubPhase else ""
  }

  /** What a successful build leaves, by mode: the isolated loop over the
      bundle targets, or the direct build of the target, after the clean's
      lines. */
  ghost predicate PhaseBuilt(env: Env, target: string, metadata: BuildOperationMetadata, p: Progress)
    requires BuildSucceeds(env, target, metadata)
  {
    if env.config.isolateBundleBuilds then
      KeysBuilt(Outcomes(env), BundleTargets(env, target, metadata.lake.value), metadata,
                CleanLines(env.config) + [DiscoveringLine], p)
    else
      DirectBuilt(Outcomes(env), env.now, BazelTarget(target), metadata, CleanLines(env.config),
                  CleanSubPhase(env.config), p)
  }

  /** The clean and the build proper, without the phase record. */
  method RunBuildPhase(env: Env, target: string, metadata: BuildOperationMetadata) returns (r: Result<Progress>)
    requires DistinctKeys(metadata.targetBuilds)
    ensures r.Ok? <==> BuildSucceeds(env, target, metadata)
    ensures r.Ok? ==> PhaseBuilt(env, target, metadata, r.value)
  {
    var logs: seq<string> := [];
    if env.config.clean {
      var failed := CleanError(env);
      if failed.Some? {
        return Err(failed.value);
      }
      logs := logs + [CleanedLine];
    }
    assert logs == CleanLines(env.config);
    if env.config.isolateBundleBuilds {
      r := BuildBundlesIndividually(env, Outcomes(env), target, metadata, logs);
    } else {
      r := BuildTargetDirectly(Outcomes(env), env.now, BazelTarget(target), metadata, logs, CleanSubPhase(env.config));
    }
  }

  /** `buildTarget`. A disabled build returns the metadata untouched. Any
      failure is reported as "Build failed" and the metadata built for it
      is dropped. On success only the target table and the build phase
      change: the phase is a succeeded record of the clock reading, and
      the table, the phase's log lines and its sub-phase are those the
      build left. */
  method BuildTarget(env: Env, target: string, metadata: BuildOperationMetadata)
    returns (r: Result<BuildOperationMetadata>)
    requires DistinctKeys(metadata.targetBuilds)
    ensures !env.config.enabled ==> r == Ok(metadata)
    ensures env.config.enabled ==> (r.Ok? <==> BuildSucceeds(env, target, metadata))
    ensures r.Err? ==> r.error == BuildFailed
    ensures env.config.enabled && r.Ok? ==>
      && r.value.(targetBuilds := metadata.targetBuilds, phaseStatuses := metadata.phaseStatuses) == metadata
      && r.value.phaseStatuses.(build := metadata.phaseStatuses.build) == metadata.phaseStatuses
      && r.value.phaseStatuses.build.Some?
      && var b := r.value.phaseStatuses.build.value;
         && b.status == PhaseSucceeded && b.errorMessage == ""
         && b.startTime == Some(env.now) && b.endTime == Some(env.now)
         && PhaseBuilt(env, target, metadata, Progress(r.value.targetBuilds, b.logLines, b.subPhase))
  {
    if !env.config.enabled {
      return Ok(metadata);
    }
    var p := RunBuildPhase(env, target, metadata);
    if p.Err? {
      return Err(BuildFailed);
    }
    var status := PhaseStatus(PhaseSucceeded, "", p.value.subPhase, Some(env.now), Some(env.now), p.value.logs);
    r := Ok(metadata.(targetBuilds := p.value.targetBuilds,
                      phaseStatuses := metadata.phaseStatuses.(build := Some(status))));
  }
}
