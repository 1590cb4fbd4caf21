/** The build orchestrator's bookkeeping: the summary of a finished build
    (counts per target status, published artifact coordinates, the first
    failure), the overall status with its precedence, the phase sequence
    of a synchronous build, and the branch lookup that falls back to
    `main`. The collaborators a build calls (gazelle, validation, Bazel,
    local publishing) are parameters that return a value or the message
    of the exception they throw. */
module Orchestrator {
  import opened Text
  import opened JavaText
  import opened JavaPaths
  import opened Protos
  import opened BuildModel
  import opened ValidationModel
  import opened Operations
  import LakeUtil

  const MainBranch := "main"
  const UnknownArtifact := "unknown"

  /** Target statuses the summary counts as successful. */
  predicate Successful(s: TargetStatus) {
    s == TargetPublished || s == TargetBuilt
  }

  /** How many entries have a status satisfying the class `c`. */
  datatype StatusClass = SuccessClass | FailedClass | SkippedClass | UncountedClass

  predicate InClass(s: TargetStatus, c: StatusClass) {
    match c
    case SuccessClass => Successful(s)
    case FailedClass => s == TargetFailed
    case SkippedClass => s == TargetSkipped
    case UncountedClass => s == TargetUnspecified || s == TargetPending || s == TargetBuilding
  }

  /** Every status is in exactly one class. */
  lemma ClassesPartition(s: TargetStatus)
    ensures (if InClass(s, SuccessClass) then 1 else 0) + (if InClass(s, FailedClass) then 1 else 0) +
            (if InClass(s, SkippedClass) then 1 else 0) + (if InClass(s, UncountedClass) then 1 else 0) == 1
  {
  }

  function Count(t: seq<TargetEntry>, c: StatusClass): (n: nat)
    ensures n <= |t|
  {
    if t == [] then 0
    else Count(t[..|t| - 1], c) + (if InClass(t[|t| - 1].info.status, c) then 1 else 0)
  }

  /** The four classes share out all the entries. */
  lemma {:induction false} CountsPartition(t: seq<TargetEntry>)
    ensures Count(t, SuccessClass) + Count(t, FailedClass) + Count(t, SkippedClass) + Count(t, UncountedClass) == |t|
  {
    if t != [] {
      CountsPartition(t[..|t| - 1]);
      ClassesPartition(t[|t| - 1].info.status);
    }
  }

  lemma CountSnoc(t: seq<TargetEntry>, e: TargetEntry, c: StatusClass)
    ensures Count(t + [e], c) == Count(t, c) + (if InClass(e.info.status, c) then 1 else 0)
  {
    assert (t + [e])[..|t|] == t;
  }

  /** No entry of the class is counted exactly when none is there. */
  lemma {:induction false} CountZero(t: seq<TargetEntry>, c: StatusClass)
    ensures Count(t, c) == 0 <==> forall i :: 0 <= i < |t| ==> !InClass(t[i].info.status, c)
  {
    if t != [] {
      CountZero(t[..|t| - 1], c);
      assert forall i :: 0 <= i < |t| - 1 ==> t[..|t| - 1][i] == t[i];
    }
  }

  /** `formatArtifactString`. */
  function FormatArtifact(a: Artifact): string {
    match a
    case MavenArtifact(g, id, v) => g + ":" + id + ":" + v
    case PythonArtifact(p, v) => p + "==" + v
    case NpmArtifact(p, v) => p + "@" + v
    case NoCoordinates => UnknownArtifact
  }

  /** Maven coordinates whose group and artifact ids hold no `:` split
      back at the first two colons. */
  lemma MavenCoordinatesRecovered(g: string, id: string, v: string)
    requires !HasChar(g, ':') && !HasChar(id, ':')
    ensures SplitFirst(FormatArtifact(MavenArtifact(g, id, v)), ":") == Some((g, id + ":" + v))
    ensures SplitFirst(id + ":" + v, ":") == Some((id, v))
  {
    assert g + ":" + id + ":" + v == g + [':'] + (id + ":" + v);
    SplitFirstAtChar(g, ':', id + ":" + v);
    SplitFirstAtChar(id, ':', v);
  }

  /** A Python package name holds no `=`, so the text splits back at the
      first `==`. */
  lemma PythonCoordinatesRecovered(p: string, v: string)
    requires !HasChar(p, '=')
    ensures SplitFirst(FormatArtifact(PythonArtifact(p, v)), "==") == Some((p, v))
  {
    FirstCharFreeHead(p, "==");
    SplitFirstConcat(p, "==", v);
  }

  /** An npm name may be scoped (`@scope/name`), so the version is what
      follows the last `@`. */
  lemma NpmCoordinatesRecovered(p: string, v: string)
    requires !HasChar(v, '@')
    ensures SplitLast(FormatArtifact(NpmArtifact(p, v)), '@') == Some((p, v))
  {
    SplitLastConcat(p, '@', v);
  }

  function FormatAll(artifacts: seq<Artifact>): (r: seq<string>)
    ensures |r| == |artifacts| && forall i :: 0 <= i < |r| ==> r[i] == FormatArtifact(artifacts[i])
  {
    seq(|artifacts|, i requires 0 <= i < |artifacts| => FormatArtifact(artifacts[i]))
  }

  /** The formatted artifacts of the successful entries, in order. */
  function PublishedOf(t: seq<TargetEntry>): seq<string> {
    if t == [] then []
    else
      var last := t[|t| - 1].info;
      PublishedOf(t[..|t| - 1]) + (if Successful(last.status) then FormatAll(last.artifacts) else [])
  }

  /** Every published coordinate is an artifact of a successful target. */
  lemma {:induction false} PublishedFromSuccessful(t: seq<TargetEntry>, k: int)
    requires 0 <= k < |PublishedOf(t)|
    ensures exists i, j :: (0 <= i < |t| && Successful(t[i].info.status) &&
      0 <= j < |t[i].info.artifacts| && PublishedOf(t)[k] == FormatArtifact(t[i].info.artifacts[j]))
  {
    var init := t[..|t| - 1];
    var last := t[|t| - 1].info;
    if k < |PublishedOf(init)| {
      PublishedFromSuccessful(init, k);
      var i, j :| 0 <= i < |init| && Successful(init[i].info.status) &&
        0 <= j < |init[i].info.artifacts| && PublishedOf(init)[k] == FormatArtifact(init[i].info.artifacts[j]);
      assert init[i] == t[i];
    } else {
      var j := k - |PublishedOf(init)|;
      assert Successful(last.status) && PublishedOf(t)[k] == FormatAll(last.artifacts)[j];
    }
  }

  /** The first failure message, or `""`. */
  function FirstErrorOf(t: seq<TargetEntry>): string {
    match FirstFailure(t)
    case Some(message) => message
    case None => ""
  }

  /** Appending an entry changes the first failure only when there was
      none. */
  lemma FirstFailureSnoc(t: seq<TargetEntry>, e: TargetEntry)
    ensures FirstFailure(t + [e]) ==
      if FirstFailure(t).Some? then FirstFailure(t)
      else if FailedWithMessage(e.info) then Some(e.info.errorMessage)
      else None
  {
    var u := t + [e];
    assert forall i :: 0 <= i < |t| ==> u[i] == t[i];
    var r := FirstFailure(u);
    if FirstFailure(t).Some? {
      var i :| 0 <= i < |t| && FirstFailureAt(t, i) && t[i].info.errorMessage == FirstFailure(t).value;
      var i' :| 0 <= i' < |u| && FirstFailureAt(u, i') && u[i'].info.errorMessage == r.value;
      assert FirstFailureAt(u, i);
      FirstFailureAtUnique(u, i, i');
    } else if FailedWithMessage(e.info) {
      assert FirstFailureAt(u, |t|);
      var i' :| 0 <= i' < |u| && FirstFailureAt(u, i') && u[i'].info.errorMessage == r.value;
      FirstFailureAtUnique(u, |t|, i');
    }
  }

  /** One more entry in the summary's pass: each count, the published list
      and the first error change only by what the entry contributes. */
  lemma SummaryStep(t: seq<TargetEntry>, i: int)
    requires 0 <= i < |t|
    ensures Count(t[..i + 1], SuccessClass) == Count(t[..i], SuccessClass) + (if Successful(t[i].info.status) then 1 else 0)
    ensures Count(t[..i + 1], FailedClass) == Count(t[..i], FailedClass) + (if t[i].info.status == TargetFailed then 1 else 0)
    ensures Count(t[..i + 1], SkippedClass) == Count(t[..i], SkippedClass) + (if t[i].info.status == TargetSkipped then 1 else 0)
    ensures PublishedOf(t[..i + 1]) ==
      PublishedOf(t[..i]) + (if Successful(t[i].info.status) then FormatAll(t[i].info.artifacts) else [])
    ensures FirstErrorOf(t[..i + 1]) ==
      if FirstErrorOf(t[..i]) == "" && FailedWithMessage(t[i].info) then t[i].info.errorMessage
      else FirstErrorOf(t[..i])
  {
    assert t[..i + 1][..i] == t[..i];
    assert t[..i + 1] == t[..i] + [t[i]];
    CountSnoc(t[..i], t[i], SuccessClass);
    CountSnoc(t[..i], t[i], FailedClass);
    CountSnoc(t[..i], t[i], SkippedClass);
    FirstFailureSnoc(t[..i], t[i]);
    if FirstFailure(t[..i]).Some? {
      var j :| 0 <= j < i && FirstFailureAt(t[..i], j) && t[..i][j].info.errorMessage == FirstFailure(t[..i]).value;
    }
  }

  /** `published + formatted artifacts`, one at a time. */
  method AppendFormatted(published: seq<string>, artifacts: seq<Artifact>) returns (r: seq<string>)
    ensures r == published + FormatAll(artifacts)
  {
    r := published;
    for j := 0 to |artifacts|
      invariant r == published + FormatAll(artifacts[..j])
    {
      assert FormatAll(artifacts[..j + 1]) == FormatAll(artifacts[..j]) + [FormatArtifact(artifacts[j])];
      r := r + [FormatArtifact(artifacts[j])];
    }
    assert artifacts[..|artifacts|] == artifacts;
  }

  /** `createBuildSummary`, as a specification. */
  function Summary(m: BuildOperationMetadata): BuildSummary {
    var t := m.targetBuilds;
    BuildSummary(|t|, Count(t, SuccessClass), Count(t, FailedClass), Count(t, SkippedClass),
                 PublishedOf(t), FirstErrorOf(t))
  }

  /** The counted targets never exceed the total; PENDING, BUILDING and
      unspecified targets make up the difference. */
  lemma SummaryCountsBounded(m: BuildOperationMetadata)
    ensures var s := Summary(m);
      s.successfulTargets + s.failedTargets + s.skippedTargets + Count(m.targetBuilds, UncountedClass) == s.totalTargets
    ensures var s := Summary(m);
      s.successfulTargets + s.failedTargets + s.skippedTargets <= s.totalTargets
  {
    CountsPartition(m.targetBuilds);
  }

  /** `createBuildSummary`: one pass over the target entries. */
  method CreateBuildSummary(m: BuildOperationMetadata) returns (s: BuildSummary)
    ensures s == Summary(m)
  {
    var t := m.targetBuilds;
    var successful, failed, skipped := 0, 0, 0;
    var published: seq<string> := [];
    var firstError := "";
    for i := 0 to |t|
      invariant successful == Count(t[..i], SuccessClass)
      invariant failed == Count(t[..i], FailedClass)
      invariant skipped == Count(t[..i], SkippedClass)
      invariant published == PublishedOf(t[..i])
      invariant firstError == FirstErrorOf(t[..i])
    {
      var target := t[i].info;
      SummaryStep(t, i);
      if Successful(target.status) {
        successful := successful + 1;
        published := AppendFormatted(published, target.artifacts);
      } else if target.status == TargetFailed {
        failed := failed + 1;
        if firstError == "" && target.errorMessage != "" {
          firstError := target.errorMessage;
        }
      } else if target.status == TargetSkipped {
        skipped := skipped + 1;
      }
    }
    assert t[..|t|] == t;
    s := BuildSummary(|t|, successful, failed, skipped, published, firstError);
  }

  /** The phases whose failure fails the whole build; the build phase is
      not among them. */
  predicate BlockingPhaseFailed(p: PhaseStatuses) {
    FailedPhase(p.gazelle) || FailedPhase(p.validation) || FailedPhase(p.publish)
  }

  /** `determineOverallStatus`. */
  function OverallStatusOf(m: BuildOperationMetadata, s: BuildSummary): (r: OverallStatus)
    ensures m.currentPhase == Cancelled ==> r == OverallCancelled
    ensures r == OverallCancelled <==> m.currentPhase == Cancelled
    ensures r == PartialSuccess <==>
      (m.currentPhase != Cancelled && !BlockingPhaseFailed(m.phaseStatuses) &&
       s.failedTargets > 0 && s.successfulTargets > 0)
    ensures r == Succeeded <==>
      (m.currentPhase != Cancelled && !BlockingPhaseFailed(m.phaseStatuses) && s.failedTargets <= 0)
    ensures r != OverallUnspecified
  {
    if m.currentPhase == Cancelled then OverallCancelled
    else if BlockingPhaseFailed(m.phaseStatuses) then OverallFailed
    else if s.failedTargets > 0 then (if s.successfulTargets > 0 then PartialSuccess else OverallFailed)
    else Succeeded
  }

  /** The build phase's own status never changes the overall status. */
  lemma BuildPhaseNotConsulted(m: BuildOperationMetadata, s: BuildSummary, build: Option<PhaseStatus>)
    ensures OverallStatusOf(m.(phaseStatuses := m.phaseStatuses.(build := build)), s) == OverallStatusOf(m, s)
  {
  }

  /** For a summary of the metadata itself: SUCCEEDED means no target
      failed, and FAILED without a failed phase means every counted
      failure came with no success. */
  lemma SucceededMeansNoFailedTarget(m: BuildOperationMetadata)
    ensures OverallStatusOf(m, Summary(m)) == Succeeded ==>
      forall i :: 0 <= i < |m.targetBuilds| ==> m.targetBuilds[i].info.status != TargetFailed
    ensures (m.currentPhase != Cancelled && !BlockingPhaseFailed(m.phaseStatuses) &&
             OverallStatusOf(m, Summary(m)) == OverallFailed) ==>
      forall i :: 0 <= i < |m.targetBuilds| ==> !Successful(m.targetBuilds[i].info.status)
  {
    CountZero(m.targetBuilds, FailedClass);
    CountZero(m.targetBuilds, SuccessClass);
  }

  /** `createBuildResponse`: the metadata, its summary and overall status,
      and the completion second `now`. */
  function CreateBuildResponse(m: BuildOperationMetadata, now: int): (r: BuildResponse)
    ensures r.metadata == m && r.summary == Summary(m) && r.completionSeconds == now
    ensures r.status == OverallStatusOf(m, Summary(m))
  {
    var s := Summary(m);
    BuildResponse(m, OverallStatusOf(m, s), now, s)
  }

  /** The collaborators `buildTargetSync` calls, each returning its value
      or the message of what it throws; `initializeWorkspace` returns the
      message of its exception, if it throws one. */
  datatype Collaborators = Collaborators(
    initializeWorkspace: Lake -> Option<string>,
    runGazelle: BuildOperationMetadata -> Result<BuildOperationMetadata>,
    validateLake: (bool, BuildOperationMetadata) -> Result<ValidationResult>,
    buildTarget: (Path, string, BuildOperationMetadata) -> Result<BuildOperationMetadata>,
    publishLocal: (Path, BuildOperationMetadata) -> Result<BuildOperationMetadata>)

  /** How `buildTargetSync` ends: with the final metadata, or by throwing
      the cancellation exception, the validation `BuildException` with its
      errors, or another exception. */
  datatype SyncOutcome =
    | Finished(metadata: BuildOperationMetadata)
    | CancelledRun
    | ValidationRejected(errors: ValidationErrors)
    | Thrown(message: string)

  /** The message of the `BuildException` a failed validation throws. */
  const ValidationFailed := "Validation failed"
  /** The prefix `buildTargetAsync` puts before an exception's message. */
  const BuildFailedPrefix := "Build failed: "
  /** A validation result without metadata makes the next step throw a
      `NullPointerException`, whose message is null. */
  const NullMetadata := "null"

  /** The phases a build that runs to the end passes through. */
  function PhaseSequence(installLocal: bool): (r: seq<OperationPhase>)
    ensures |r| == if installLocal then 5 else 4
    ensures r[0] == RunningGazelle && r[|r| - 1] == Completed
    ensures Publishing in r <==> installLocal
  {
    [RunningGazelle, Validating, Building] + (if installLocal then [Publishing] else []) + [Completed]
  }

  /** A phase a build is in while it runs. */
  predicate RunningPhase(p: OperationPhase) {
    p == RunningGazelle || p == Validating || p == Building || p == Publishing
  }

  predicate IsPrefix<T(==)>(p: seq<T>, s: seq<T>) {
    |p| <= |s| && p == s[..|p|]
  }

  /** The prefixes of the phase sequence a build can stop after. */
  lemma PhasePrefixes(installLocal: bool)
    ensures PhaseSequence(installLocal)[..0] == []
    ensures PhaseSequence(installLocal)[..1] == [RunningGazelle]
    ensures PhaseSequence(installLocal)[..2] == [RunningGazelle, Validating]
    ensures PhaseSequence(installLocal)[..|PhaseSequence(installLocal)|] == PhaseSequence(installLocal)
  {
  }

  /** `throwIfCancelled` on an optional token. */
  method CheckCancelled(token: CancellationToken?) returns (stop: bool)
    ensures stop <==> token != null && token.cancelled
  {
    if token == null {
      return false;
    }
    var thrown := token.ThrowIfCancelled();
    stop := thrown.Some?;
  }

  /** The gazelle and validation phases of `buildTargetSync`: `reached`
      phases entered, and `stopped` how the build ends when it ends
      here. */
  method GazelleAndValidation(skipValidation: bool, token: CancellationToken?, c: Collaborators,
                              metadata: BuildOperationMetadata)
    returns (stopped: Option<SyncOutcome>, m: BuildOperationMetadata,
             reached: nat, updates: seq<BuildOperationMetadata>)
    ensures reached == 1 || reached == 2
    ensures stopped.None? ==> reached == 2 && updates != [] && updates[|updates| - 1] == m
    ensures stopped.Some? ==> !stopped.value.Finished?
    ensures stopped.Some? && stopped.value.ValidationRejected? ==> reached == 2
    ensures token != null && token.cancelled ==> stopped == Some(CancelledRun) && reached == 1
    ensures updates != [] && updates[0] == metadata.(currentPhase := RunningGazelle)
    ensures stopped == Some(CancelledRun) ==> RunningPhase(updates[|updates| - 1].currentPhase)
  {
    m := metadata.(currentPhase := RunningGazelle);
    reached := 1;
    updates := [m];
    var stop := CheckCancelled(token);
    if stop {
      return Some(CancelledRun), m, reached, updates;
    }
    var gazelle := c.runGazelle(m);
    if gazelle.Err? {
      return Some(Thrown(gazelle.error)), m, reached, updates;
    }
    m := gazelle.value;
    updates := updates + [m];

    m := m.(currentPhase := Validating);
    reached := 2;
    updates := updates + [m];
    stop := CheckCancelled(token);
    if stop {
      return Some(CancelledRun), m, reached, updates;
    }
    var validation := c.validateLake(skipValidation, m);
    if validation.Err? {
      return Some(Thrown(validation.error)), m, reached, updates;
    }
    if validation.value.metadata.None? {
      return Some(Thrown(NullMetadata)), m, reached, updates;
    }
    m := validation.value.metadata.value;
    updates := updates + [m];
    if !validation.value.success {
      return Some(ValidationRejected(validation.value.errors)), m, reached, updates;
    }
    stopped := None;
  }

  /** The lake's root directory and the target made relative to it. */
  method LakeTarget(lake: Lake, target: string, basePath: string) returns (root: Path, relative: Result<string>)
    ensures root == LakeUtil.GetLocalPath(lake, basePath)
    ensures relative == LakeUtil.ConvertToLakeRelativePath(target, lake)
  {
    root := LakeUtil.GetLocalPath(lake, basePath);
    relative := LakeUtil.ConvertToLakeRelativePath(target, lake);
  }

  /** The publishing phase, when `installLocal` asks for it, and the
      completion of `buildTargetSync`; `reached` counts the phases
      entered. */
  method PublishAndComplete(installLocal: bool, token: CancellationToken?, c: Collaborators,
                            lakeRoot: Path, metadata: BuildOperationMetadata)
    returns (outcome: SyncOutcome, reached: nat, updates: seq<BuildOperationMetadata>)
    ensures reached == (if installLocal then 1 else 0) + (if outcome.Finished? then 1 else 0)
    ensures !installLocal ==> outcome.Finished?
    ensures !outcome.ValidationRejected? && updates != []
    ensures installLocal && token != null && token.cancelled ==> outcome == CancelledRun
    ensures outcome.Finished? ==>
      outcome.metadata.currentPhase == Completed && updates[|updates| - 1] == outcome.metadata
    ensures outcome == CancelledRun ==> RunningPhase(updates[|updates| - 1].currentPhase)
  {
    var m := metadata;
    reached := 0;
    updates := [];
    if installLocal {
      m := m.(currentPhase := Publishing);
      reached := 1;
      updates := [m];
      var stop := CheckCancelled(token);
      if stop {
        return CancelledRun, reached, updates;
      }
      var published := c.publishLocal(lakeRoot, m);
      if published.Err? {
        return Thrown(published.error), reached, updates;
      }
      m := published.value;
      updates := updates + [m];
    }
    m := m.(currentPhase := Completed);
    reached := reached + 1;
    updates := updates + [m];
    outcome := Finished(m);
  }

  /** The build, publishing and completion phases of `buildTargetSync`;
      `reached` counts the phases entered. */
  method BuildAndPublish(lake: Lake, target: string, installLocal: bool, token: CancellationToken?,
                         c: Collaborators, basePath: string, metadata: BuildOperationMetadata)
    returns (outcome: SyncOutcome, reached: nat, updates: seq<BuildOperationMetadata>)
    ensures 1 <= reached <= |PhaseSequence(installLocal)| - 2 && updates != []
    ensures outcome.Finished? <==> reached == |PhaseSequence(installLocal)| - 2
    ensures !outcome.ValidationRejected?
    ensures token != null && token.cancelled ==> outcome == CancelledRun && reached == 1
    ensures outcome.Finished? ==>
      outcome.metadata.currentPhase == Completed && updates[|updates| - 1] == outcome.metadata
    ensures outcome == CancelledRun ==> RunningPhase(updates[|updates| - 1].currentPhase)
  {
    var m := metadata.(currentPhase := Building);
    updates := [m];
    var stop := CheckCancelled(token);
    if stop {
      return CancelledRun, 1, updates;
    }
    var lakeRoot, relative := LakeTarget(lake, target, basePath);
    if relative.Err? {
      return Thrown(relative.error), 1, updates;
    }
    var built := c.buildTarget(lakeRoot, relative.value, m);
    if built.Err? {
      return Thrown(built.error), 1, updates;
    }
    m := built.value;
    var later, laterUpdates;
    outcome, later, laterUpdates := PublishAndComplete(installLocal, token, c, lakeRoot, m);
    reached := 1 + later;
    updates := updates + [m] + laterUpdates;
  }

  /** `buildTargetSync`: `phases` are the phases the orchestrator enters
      and `updates` the metadata it hands the listener, in order. Phases
      only advance along RUNNING_GAZELLE, VALIDATING, BUILDING, PUBLISHING
      (only with `installLocal`), COMPLETED; a failed validation stops the
      build before BUILDING, and a cancelled token before the next phase
      runs. Only a workspace that cannot be initialised ends the build
      before its first phase. */
  method BuildTargetSync(lake: Lake, target: string, skipValidation: bool, installLocal: bool,
                         token: CancellationToken?, c: Collaborators, basePath: string,
                         metadata: BuildOperationMetadata)
    returns (outcome: SyncOutcome, phases: seq<OperationPhase>, updates: seq<BuildOperationMetadata>)
    ensures IsPrefix(phases, PhaseSequence(installLocal))
    ensures phases == [] <==> c.initializeWorkspace(lake).Some?
    ensures phases == [] ==> outcome == Thrown(c.initializeWorkspace(lake).value) && updates == []
    ensures outcome.Finished? ==>
      && phases == PhaseSequence(installLocal) && outcome.metadata.currentPhase == Completed
      && updates != [] && updates[|updates| - 1] == outcome.metadata
    ensures outcome.ValidationRejected? ==> phases == [RunningGazelle, Validating]
    ensures c.initializeWorkspace(lake).None? && token != null && token.cancelled ==>
      outcome == CancelledRun && phases == [RunningGazelle]
    ensures phases != [] ==> updates != [] && updates[0] == metadata.(currentPhase := RunningGazelle)
    ensures outcome == CancelledRun ==> updates != [] && RunningPhase(updates[|updates| - 1].currentPhase)
  {
    var initError := c.initializeWorkspace(lake);
    if initError.Some? {
      return Thrown(initError.value), [], [];
    }
    PhasePrefixes(installLocal);
    var stopped, m, front, frontUpdates := GazelleAndValidation(skipValidation, token, c, metadata);
    if stopped.Some? {
      return stopped.value, PhaseSequence(installLocal)[..front], frontUpdates;
    }
    var back, backUpdates;
    outcome, back, backUpdates := BuildAndPublish(lake, target, installLocal, token, c, basePath, m);
    phases := PhaseSequence(installLocal)[..front + back];
    updates := frontUpdates + backUpdates;
    assert updates[|updates| - 1] == backUpdates[|backUpdates| - 1];
  }

  /** The listener's `onMetadataUpdate` calls, in order: each stores its
      metadata with `updateMetadata`. */
  method Notify(manager: OperationManager, name: string, updates: seq<BuildOperationMetadata>)
    modifies manager
    ensures manager.operations == if updates == [] then old(manager.operations)
                                  else old(manager.operations)[name := updates[|updates| - 1]]
    ensures manager.tokens == old(manager.tokens) && manager.completionTimes == old(manager.completionTimes)
    ensures manager.responses == old(manager.responses) && manager.active == old(manager.active)
  {
    for i := 0 to |updates|
      invariant manager.operations == if i == 0 then old(manager.operations)
                                      else old(manager.operations)[name := updates[i - 1]]
      invariant manager.tokens == old(manager.tokens) && manager.completionTimes == old(manager.completionTimes)
      invariant manager.responses == old(manager.responses) && manager.active == old(manager.active)
    {
      manager.UpdateMetadata(name, updates[i]);
    }
  }

  /** `buildTargetAsync` with the listener `buildTarget` wires to the
      operation table, the build run on the calling thread. A finished
      build completes the operation with its response; any exception but
      the cancellation fails it; a cancelled build leaves the operation as
      its last update left it, which is not a finished state. */
  method BuildTargetAsync(manager: OperationManager, lake: Lake, target: string, skipValidation: bool,
                          installLocal: bool, name: string, token: CancellationToken?, c: Collaborators,
                          basePath: string, now: int)
    returns (outcome: Option<SyncOutcome>)
    modifies manager
    ensures outcome.None? <==> name !in old(manager.operations)
    ensures outcome.None? ==> manager.operations == old(manager.operations) && manager.active == old(manager.active)
    ensures manager.tokens == old(manager.tokens)
    ensures outcome.Some? ==> name in manager.operations
    ensures outcome.Some? && outcome.value.Finished? ==>
      && manager.operations[name].currentPhase == Completed
      && name in manager.responses
      && manager.responses[name] == CreateBuildResponse(outcome.value.metadata, now)
    ensures outcome.Some? && (outcome.value.ValidationRejected? || outcome.value.Thrown?) ==>
      manager.operations[name].currentPhase == Failed
    ensures outcome.Some? && outcome.value == CancelledRun ==> RunningPhase(manager.operations[name].currentPhase)
    ensures name in old(manager.operations) && c.initializeWorkspace(lake).None? && token != null && token.cancelled ==>
      outcome == Some(CancelledRun)
  {
    var stored := manager.Get(name);
    if stored.None? {
      return None;
    }
    var result, phases, updates := BuildTargetSync(lake, target, skipValidation, installLocal, token, c,
                                                   basePath, stored.value);
    Notify(manager, name, updates);
    outcome := Some(result);
    match result {
      case Finished(m) =>
        manager.CompleteOperation(name, CreateBuildResponse(m, now), now);
      case CancelledRun =>
      case ValidationRejected(_) =>
        manager.FailOperation(name, BuildFailedPrefix + ValidationFailed, now);
      case Thrown(message) =>
        manager.FailOperation(name, BuildFailedPrefix + message, now);
    }
  }

  /** A cancellation that reaches an operation before its build thread
      starts, as written: the thread's first `updateMetadata` replaces the
      CANCELLED metadata with a running phase, the thread then sees the
      cancelled token and only logs, so the operation is left running for
      good and `getOperation` reports it not done. */
  method CancelBeforeBuildAsWritten(lake: Lake, target: string, name: string, resource: string,
                                    c: Collaborators, basePath: string, metadata: BuildOperationMetadata, now: int)
    returns (manager: OperationManager, view: Option<Operation>)
    requires !IsDone(metadata) && c.initializeWorkspace(lake).None?
    ensures manager.IsActive(name)
    ensures view.Some? && !view.value.done && view.value.error.None?
  {
    manager := new OperationManager();
    var token := new CancellationToken();
    var created := manager.CreateOperation(name, resource, metadata, token);
    var cancelled := manager.CancelOperation(name, now);
    assert cancelled && token.cancelled;
    var outcome := BuildTargetAsync(manager, lake, target, false, false, name, token, c, basePath, now);
    view := manager.GetOperation(name);
  }

  /** The listener's updates through `UpdateMetadataUnlessDone`. */
  method NotifyUnlessDone(manager: OperationManager, name: string, updates: seq<BuildOperationMetadata>)
    modifies manager
    ensures name in old(manager.operations) && IsDone(old(manager.operations[name])) ==>
      manager.operations == old(manager.operations)
    ensures !(name in old(manager.operations) && IsDone(old(manager.operations[name]))) && updates != [] ==>
      name in manager.operations && manager.operations == old(manager.operations)[name := manager.operations[name]]
    ensures updates == [] ==> manager.operations == old(manager.operations)
    ensures manager.tokens == old(manager.tokens) && manager.completionTimes == old(manager.completionTimes)
    ensures manager.responses == old(manager.responses) && manager.active == old(manager.active)
  {
    ghost var finished := name in manager.operations && IsDone(manager.operations[name]);
    for i := 0 to |updates|
      invariant finished ==> manager.operations == old(manager.operations)
      invariant i == 0 ==> manager.operations == old(manager.operations)
      invariant !finished && i > 0 ==>
        name in manager.operations && manager.operations == old(manager.operations)[name := manager.operations[name]]
      invariant manager.tokens == old(manager.tokens) && manager.completionTimes == old(manager.completionTimes)
      invariant manager.responses == old(manager.responses) && manager.active == old(manager.active)
    {
      manager.UpdateMetadataUnlessDone(name, updates[i]);
    }
  }

  /** `buildTargetAsync` with a listener that leaves a finished operation
      alone: a build that sees its cancellation leaves the operation
      CANCELLED. */
  method BuildTargetAsyncCorrected(manager: OperationManager, lake: Lake, target: string, skipValidation: bool,
                                   installLocal: bool, name: string, token: CancellationToken?, c: Collaborators,
                                   basePath: string, now: int)
    returns (outcome: Option<SyncOutcome>)
    modifies manager
    ensures outcome.None? <==> name !in old(manager.operations)
    ensures outcome.None? ==> manager.operations == old(manager.operations) && manager.active == old(manager.active)
    ensures manager.tokens == old(manager.tokens)
    ensures outcome.Some? ==> name in manager.operations
    ensures outcome.Some? && outcome.value.Finished? ==>
      && manager.operations[name].currentPhase == Completed
      && name in manager.responses
      && manager.responses[name] == CreateBuildResponse(outcome.value.metadata, now)
    ensures outcome.Some? && (outcome.value.ValidationRejected? || outcome.value.Thrown?) ==>
      manager.operations[name].currentPhase == Failed
    ensures outcome.Some? && outcome.value == CancelledRun && old(manager.operations[name]).currentPhase == Cancelled ==>
      manager.operations[name].currentPhase == Cancelled
    ensures name in old(manager.operations) && c.initializeWorkspace(lake).None? && token != null && token.cancelled ==>
      outcome == Some(CancelledRun)
  {
    var stored := manager.Get(name);
    if stored.None? {
      return None;
    }
    var result, phases, updates := BuildTargetSync(lake, target, skipValidation, installLocal, token, c,
                                                   basePath, stored.value);
    NotifyUnlessDone(manager, name, updates);
    outcome := Some(result);
    match result {
      case Finished(m) =>
        manager.CompleteOperation(name, CreateBuildResponse(m, now), now);
      case CancelledRun =>
      case ValidationRejected(_) =>
        manager.FailOperation(name, BuildFailedPrefix + ValidationFailed, now);
      case Thrown(message) =>
        manager.FailOperation(name, BuildFailedPrefix + message, now);
    }
  }

  /** The same cancellation with the corrected listener: the operation
      stays CANCELLED and `getOperation` reports it done with CANCELLED. */
  method CancelBeforeBuildCorrected(lake: Lake, target: string, name: string, resource: string,
                                    c: Collaborators, basePath: string, metadata: BuildOperationMetadata, now: int)
    returns (manager: OperationManager, view: Option<Operation>)
    requires !IsDone(metadata) && c.initializeWorkspace(lake).None?
    ensures name in manager.operations && manager.operations[name].currentPhase == Cancelled && !manager.IsActive(name)
    ensures view.Some? && view.value.done && view.value.error == Some(RpcStatus(CodeCancelled, CancelledByUser))
  {
    manager := new OperationManager();
    var token := new CancellationToken();
    var created := manager.CreateOperation(name, resource, metadata, token);
    var cancelled := manager.CancelOperation(name, now);
    assert cancelled && token.cancelled;
    var outcome := BuildTargetAsyncCorrected(manager, lake, target, false, false, name, token, c, basePath, now);
    view := manager.GetOperation(name);
  }

  /** `getCurrentBranch`: the lake's git branch, or `main` when the lake is
      not stored or git fails. */
  function CurrentBranch(lakes: map<string, Lake>, lakeName: string, basePath: string,
                         git: Path -> Result<string>): (r: string)
    ensures lakeName !in lakes ==> r == MainBranch
    ensures lakeName in lakes && git(LakeUtil.GetLocalPath(lakes[lakeName], basePath)).Err? ==> r == MainBranch
    ensures r == MainBranch || (lakeName in lakes && git(LakeUtil.GetLocalPath(lakes[lakeName], basePath)) == Ok(r))
  {
    if lakeName !in lakes then MainBranch
    else match git(LakeUtil.GetLocalPath(lakes[lakeName], basePath))
      case Ok(branch) => branch
      case Err(_) => MainBranch
  }
}
