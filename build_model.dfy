/** The protolake.v1 build-operation messages that the operation table and
    the build pipeline share: phases, phase statuses, per-target build
    records and the final response. Only the fields the services read or
    write are modelled. A proto map is kept as a list of entries with
    distinct keys; where the services iterate a Java `HashMap` (whose order
    decides the first failure message), the list's order stands in for the
    hash order, which is not modelled. Timestamps are whole seconds. */
module BuildModel {
  import opened Text
  import opened Protos

  /** `OperationPhase`. */
  datatype OperationPhase =
    | PhaseUnspecified | RunningGazelle | Validating | Building | Publishing
    | Completed | Failed | Cancelled

  /** `PhaseStatus.Status`. */
  datatype PhaseState = StateUnspecified | PhasePending | PhaseRunning | PhaseSucceeded | PhaseFailed | PhaseSkipped

  datatype PhaseStatus = PhaseStatus(
    status: PhaseState, errorMessage: string, subPhase: string,
    startTime: Option<int>, endTime: Option<int>, logLines: seq<string>)

  /** The four phase slots; an unset slot is `None` (`hasGazelle()` and
      friends are false). */
  datatype PhaseStatuses = PhaseStatuses(
    gazelle: Option<PhaseStatus>, validation: Option<PhaseStatus>,
    build: Option<PhaseStatus>, publish: Option<PhaseStatus>)

  const NoPhaseStatuses := PhaseStatuses(None, None, None, None)

  /** `hasX() && getX().getStatus() == FAILED`. */
  predicate FailedPhase(p: Option<PhaseStatus>) {
    p.Some? && p.value.status == PhaseFailed
  }

  /** `TargetBuildInfo.Status`. */
  datatype TargetStatus =
    | TargetUnspecified | TargetPending | TargetBuilding | TargetBuilt
    | TargetPublished | TargetFailed | TargetSkipped

  /** An artifact's coordinates: the `oneof` of Maven, Python and npm, or
      none of them. */
  datatype Artifact =
    | MavenArtifact(groupId: string, artifactId: string, version: string)
    | PythonArtifact(packageName: string, version: string)
    | NpmArtifact(packageName: string, version: string)
    | NoCoordinates

  /** `TargetBuildInfo`; `artifacts` are the values of its artifact map in
      iteration order. */
  datatype TargetBuildInfo = TargetBuildInfo(
    target: string, version: string, status: TargetStatus,
    startTime: Option<int>, endTime: Option<int>, errorMessage: string,
    buildLogs: seq<string>, artifacts: seq<Artifact>)

  /** One entry of the `target_builds` map. */
  datatype TargetEntry = TargetEntry(key: string, info: TargetBuildInfo)

  /** `BuildOperationMetadata`. */
  datatype BuildOperationMetadata = BuildOperationMetadata(
    currentPhase: OperationPhase, phaseStatuses: PhaseStatuses,
    targetBuilds: seq<TargetEntry>, branch: string, requestedTarget: string,
    lake: Option<Lake>)

  datatype BuildSummary = BuildSummary(
    totalTargets: int, successfulTargets: int, failedTargets: int, skippedTargets: int,
    publishedArtifacts: seq<string>, firstError: string)

  /** `BuildResponse.OverallStatus`. */
  datatype OverallStatus = OverallUnspecified | Succeeded | PartialSuccess | OverallFailed | OverallCancelled

  datatype BuildResponse = BuildResponse(
    metadata: BuildOperationMetadata, status: OverallStatus,
    completionSeconds: int, summary: BuildSummary)

  /** The keys of a target table, in order. */
  function Keys(t: seq<TargetEntry>): (r: seq<string>)
    ensures |r| == |t| && forall i :: 0 <= i < |t| ==> r[i] == t[i].key
  {
    seq(|t|, i requires 0 <= i < |t| => t[i].key)
  }

  predicate DistinctKeys(t: seq<TargetEntry>) {
    forall i, j :: 0 <= i < j < |t| ==> t[i].key != t[j].key
  }

  /** `getTargetBuildsMap().get(key)`. */
  function Lookup(t: seq<TargetEntry>, key: string): (r: Option<TargetBuildInfo>)
    ensures r.Some? <==> key in Keys(t)
  {
    if t == [] then None
    else if t[0].key == key then Some(t[0].info)
    else
      assert Keys(t) == [t[0].key] + Keys(t[1..]);
      Lookup(t[1..], key)
  }

  /** In a table with distinct keys, each entry is what its key looks up. */
  lemma {:induction false} LookupEntry(t: seq<TargetEntry>, i: int)
    requires DistinctKeys(t) && 0 <= i < |t|
    ensures Lookup(t, t[i].key) == Some(t[i].info)
  {
    if i > 0 {
      assert t[1..][i - 1] == t[i];
      LookupEntry(t[1..], i - 1);
    }
  }

  /** The keys of a table with one entry in front. */
  lemma KeysCons(e: TargetEntry, t: seq<TargetEntry>)
    ensures Keys([e] + t) == [e.key] + Keys(t)
  {
  }

  /** One entry in front of a table with distinct keys, its key not among
      them, keeps the keys distinct. */
  lemma ConsDistinct(e: TargetEntry, t: seq<TargetEntry>)
    requires DistinctKeys(t) && e.key !in Keys(t)
    ensures DistinctKeys([e] + t)
  {
    var r := [e] + t;
    forall i, j | 0 <= i < j < |r| ensures r[i].key != r[j].key {
      assert r[j] == t[j - 1];
      if i == 0 {
        assert Keys(t)[j - 1] == t[j - 1].key;
      } else {
        assert r[i] == t[i - 1];
      }
    }
  }

  /** The tail of a table with distinct keys: distinct keys, none the
      head's. */
  lemma TailDistinct(t: seq<TargetEntry>)
    requires DistinctKeys(t) && t != []
    ensures DistinctKeys(t[1..]) && t[0].key !in Keys(t[1..])
  {
    forall i, j | 0 <= i < j < |t[1..]| ensures t[1..][i].key != t[1..][j].key {
      assert t[1..][i] == t[i + 1] && t[1..][j] == t[j + 1];
    }
    forall i | 0 <= i < |t[1..]| ensures Keys(t[1..])[i] != t[0].key {
      assert t[1..][i] == t[i + 1];
    }
  }

  /** `put(key, info)`: an existing key keeps its place, a new key goes
      last. */
  function Put(t: seq<TargetEntry>, key: string, info: TargetBuildInfo): (r: seq<TargetEntry>)
    ensures forall k :: k in Keys(r) <==> k == key || k in Keys(t)
    ensures |r| == if key in Keys(t) then |t| else |t| + 1
  {
    if t == [] then
      assert Keys([TargetEntry(key, info)]) == [key];
      [TargetEntry(key, info)]
    else if t[0].key == key then
      KeysCons(t[0], t[1..]);
      KeysCons(TargetEntry(key, info), t[1..]);
      assert t == [t[0]] + t[1..];
      [TargetEntry(key, info)] + t[1..]
    else
      var rest := Put(t[1..], key, info);
      KeysCons(t[0], t[1..]);
      KeysCons(t[0], rest);
      assert t == [t[0]] + t[1..];
      [t[0]] + rest
  }

  /** After `put`, the key looks up the new value and every other key
      what it looked up before. */
  lemma {:induction false} PutLookup(t: seq<TargetEntry>, key: string, info: TargetBuildInfo, k: string)
    ensures Lookup(Put(t, key, info), k) == if k == key then Some(info) else Lookup(t, k)
  {
    if t != [] && t[0].key != key {
      PutLookup(t[1..], key, info, k);
      var r := Put(t, key, info);
      assert r[1..] == Put(t[1..], key, info);
    } else if t != [] {
      var r := Put(t, key, info);
      assert r[1..] == t[1..];
    }
  }

  /** `PutLookup` for every key at once. */
  lemma PutLookupAll(t: seq<TargetEntry>, key: string, info: TargetBuildInfo)
    ensures forall k :: Lookup(Put(t, key, info), k) == if k == key then Some(info) else Lookup(t, k)
  {
    forall k ensures Lookup(Put(t, key, info), k) == if k == key then Some(info) else Lookup(t, k) {
      PutLookup(t, key, info, k);
    }
  }

  /** Putting an existing key leaves the keys, and their order, as they
      were. */
  lemma {:induction false} PutExistingKeys(t: seq<TargetEntry>, key: string, info: TargetBuildInfo)
    requires key in Keys(t)
    ensures Keys(Put(t, key, info)) == Keys(t)
  {
    assert t == [t[0]] + t[1..];
    KeysCons(t[0], t[1..]);
    if t[0].key == key {
      KeysCons(TargetEntry(key, info), t[1..]);
    } else {
      PutExistingKeys(t[1..], key, info);
      KeysCons(t[0], Put(t[1..], key, info));
    }
  }

  /** Putting keeps the keys distinct. */
  lemma {:induction false} PutDistinct(t: seq<TargetEntry>, key: string, info: TargetBuildInfo)
    requires DistinctKeys(t)
    ensures DistinctKeys(Put(t, key, info))
  {
    if t != [] {
      TailDistinct(t);
      if t[0].key != key {
        PutDistinct(t[1..], key, info);
        ConsDistinct(t[0], Put(t[1..], key, info));
      } else {
        ConsDistinct(TargetEntry(key, info), t[1..]);
      }
    }
  }

  /** `putAll(other)`: the entries of `other` put in its order. */
  function PutAll(t: seq<TargetEntry>, other: seq<TargetEntry>): (r: seq<TargetEntry>)
    ensures forall k :: k in Keys(r) <==> k in Keys(other) || k in Keys(t)
    decreases |other|
  {
    if other == [] then t
    else
      assert Keys(other) == [other[0].key] + Keys(other[1..]);
      PutAll(Put(t, other[0].key, other[0].info), other[1..])
  }

  /** After `putAll` of a map, a key looks up the map's value when the map
      has it and the old value otherwise. */
  lemma {:induction false} PutAllLookup(t: seq<TargetEntry>, other: seq<TargetEntry>, k: string)
    requires DistinctKeys(other)
    ensures Lookup(PutAll(t, other), k) == if k in Keys(other) then Lookup(other, k) else Lookup(t, k)
    decreases |other|
  {
    if other != [] {
      var t' := Put(t, other[0].key, other[0].info);
      assert Keys(other) == [other[0].key] + Keys(other[1..]);
      assert DistinctKeys(other[1..]) by {
        forall i, j | 0 <= i < j < |other[1..]| ensures other[1..][i].key != other[1..][j].key {
          assert other[1..][i] == other[i + 1] && other[1..][j] == other[j + 1];
        }
      }
      assert other[0].key !in Keys(other[1..]) by {
        forall i | 0 <= i < |other[1..]| ensures other[1..][i].key != other[0].key {
          assert other[1..][i] == other[i + 1];
        }
      }
      PutAllLookup(t', other[1..], k);
      PutLookup(t, other[0].key, other[0].info, k);
    }
  }

  /** Putting all of a table that already holds every old key leaves
      exactly that table's lookups. */
  lemma PutAllOverCopy(t: seq<TargetEntry>, other: seq<TargetEntry>)
    requires DistinctKeys(other)
    requires forall k :: k in Keys(t) ==> k in Keys(other)
    ensures forall k :: Lookup(PutAll(t, other), k) == Lookup(other, k)
  {
    forall k ensures Lookup(PutAll(t, other), k) == Lookup(other, k) {
      PutAllLookup(t, other, k);
    }
  }

  /** `putAll` keeps the keys distinct. */
  lemma {:induction false} PutAllDistinct(t: seq<TargetEntry>, other: seq<TargetEntry>)
    requires DistinctKeys(t)
    ensures DistinctKeys(PutAll(t, other))
    decreases |other|
  {
    if other != [] {
      PutDistinct(t, other[0].key, other[0].info);
      PutAllDistinct(Put(t, other[0].key, other[0].info), other[1..]);
    }
  }

  /** A target that failed with a message. */
  predicate FailedWithMessage(info: TargetBuildInfo) {
    info.status == TargetFailed && info.errorMessage != ""
  }

  /** Entry `i` is the first that failed with a message. */
  predicate FirstFailureAt(t: seq<TargetEntry>, i: int)
    requires 0 <= i < |t|
  {
    FailedWithMessage(t[i].info) && forall j :: 0 <= j < i ==> !FailedWithMessage(t[j].info)
  }

  /** At most one entry is the first failure. */
  lemma FirstFailureAtUnique(t: seq<TargetEntry>, i: int, j: int)
    requires 0 <= i < |t| && 0 <= j < |t| && FirstFailureAt(t, i) && FirstFailureAt(t, j)
    ensures i == j
  {
  }

  /** The message of the first target, in iteration order, that failed
      with a message. */
  function FirstFailure(t: seq<TargetEntry>): (r: Option<string>)
    ensures r.None? <==> forall i :: 0 <= i < |t| ==> !FailedWithMessage(t[i].info)
    ensures r.Some? ==> exists i :: 0 <= i < |t| && FirstFailureAt(t, i) && t[i].info.errorMessage == r.value
  {
    if t == [] then None
    else if FailedWithMessage(t[0].info) then Some(t[0].info.errorMessage)
    else
      var r := FirstFailure(t[1..]);
      assert forall i :: 1 <= i < |t| ==> t[i] == t[1..][i - 1];
      if r.Some? then
        var i :| 0 <= i < |t[1..]| && FirstFailureAt(t[1..], i) && t[1..][i].info.errorMessage == r.value;
        assert FirstFailureAt(t, i + 1) by {
          forall j | 0 <= j < i + 1 ensures !FailedWithMessage(t[j].info) {
            if j > 0 { assert t[j] == t[1..][j - 1]; }
          }
        }
        r
      else r
  }
}
