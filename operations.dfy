/** The in-memory table of long-running build operations and the one-way
    cancellation flag each running build polls. The table keeps five maps
    keyed by operation name (metadata, tokens, completion instants, final
    responses) or by resource name (the operation admitted for it). An
    operation is done once its phase is COMPLETED, FAILED or CANCELLED; a
    resource accepts a new operation unless its indexed operation is still
    running. The clock is a parameter (`now`); the TTL sweep and the
    executor that runs it are not modelled. */
module Operations {
  import opened Text
  import opened BuildModel

  /** The `google.rpc.Code` values the table reports. */
  const CodeCancelled := 1
  const CodeAborted := 10
  const CodeInternal := 13

  const TokenCancelledMessage := "Operation cancelled"
  const CancelledByUser := "Operation cancelled by user"
  const DefaultFailure := "Build failed"
  const ResourceWord := "Resource "
  const AlreadyActive := " already has an active build operation: "

  const LakeTarget := "//..."
  const BundlesTarget := "//bundles/"
  const UnknownLake := "lakes/unknown"
  const UnknownBundles := "lakes/unknown/bundles/"
  const UnknownResource := "unknown"

  /** `Integer.MAX_VALUE`, the page size when none is given. */
  const MaxInt := 0x7fff_ffff

  datatype RpcStatus = RpcStatus(code: int, message: string)

  /** `google.longrunning.Operation`: the metadata is absent only on the
      refusal `createOperation` returns; `error` and `response` are the
      two arms of its result. */
  datatype Operation = Operation(
    name: string, metadata: Option<BuildOperationMetadata>, done: bool,
    error: Option<RpcStatus>, response: Option<BuildResponse>)

  /** `CancellationToken`: a flag that starts clear and that only `Cancel`
      writes, and then only to set it. */
  class CancellationToken {
    var cancelled: bool

    constructor()
      ensures !cancelled
    {
      cancelled := false;
    }

    /** `cancel`: idempotent, since it only ever sets the flag. */
    method Cancel()
      modifies this
      ensures cancelled
    {
      cancelled := true;
    }

    /** `throwIfCancelled`: the exception's message, exactly when the flag
        is set. */
    method ThrowIfCancelled() returns (thrown: Option<string>)
      ensures thrown.Some? <==> cancelled
      ensures thrown.Some? ==> thrown.value == TokenCancelledMessage
    {
      if cancelled {
        return Some(TokenCancelledMessage);
      }
      return None;
    }
  }

  /** `isOperationDone`. */
  predicate IsDone(m: BuildOperationMetadata) {
    m.currentPhase == Completed || m.currentPhase == Failed || m.currentPhase == Cancelled
  }

  /** Some phase among gazelle, validation and build failed. */
  predicate SomePhaseFailed(p: PhaseStatuses) {
    FailedPhase(p.gazelle) || FailedPhase(p.validation) || FailedPhase(p.build)
  }

  /** `getOperationError`: the message of the first failed phase in the
      order gazelle, validation, build; else the first target that failed
      with a message; else "Build failed". */
  function OperationError(m: BuildOperationMetadata): (r: string)
    ensures FailedPhase(m.phaseStatuses.gazelle) ==> r == m.phaseStatuses.gazelle.value.errorMessage
    ensures !FailedPhase(m.phaseStatuses.gazelle) && FailedPhase(m.phaseStatuses.validation) ==>
      r == m.phaseStatuses.validation.value.errorMessage
    ensures (!FailedPhase(m.phaseStatuses.gazelle) && !FailedPhase(m.phaseStatuses.validation) &&
             FailedPhase(m.phaseStatuses.build)) ==> r == m.phaseStatuses.build.value.errorMessage
    ensures !SomePhaseFailed(m.phaseStatuses) ==>
      r == if FirstFailure(m.targetBuilds).Some? then FirstFailure(m.targetBuilds).value else DefaultFailure
  {
    var p := m.phaseStatuses;
    if FailedPhase(p.gazelle) then p.gazelle.value.errorMessage
    else if FailedPhase(p.validation) then p.validation.value.errorMessage
    else if FailedPhase(p.build) then p.build.value.errorMessage
    else match FirstFailure(m.targetBuilds)
      case Some(message) => message
      case None => DefaultFailure
  }

  /** Where a reported failure comes from: a failed phase, a target that
      failed with that message, or the fixed fallback, which is used only
      when no target failed with a message. */
  lemma OperationErrorSource(m: BuildOperationMetadata)
    ensures var r := OperationError(m);
      var p := m.phaseStatuses;
      || (FailedPhase(p.gazelle) && r == p.gazelle.value.errorMessage)
      || (FailedPhase(p.validation) && r == p.validation.value.errorMessage)
      || (FailedPhase(p.build) && r == p.build.value.errorMessage)
      || (exists i :: (0 <= i < |m.targetBuilds| && FailedWithMessage(m.targetBuilds[i].info) &&
                       r == m.targetBuilds[i].info.errorMessage))
      || (r == DefaultFailure && forall i :: 0 <= i < |m.targetBuilds| ==> !FailedWithMessage(m.targetBuilds[i].info))
  {
  }

  /** A failed phase masks the targets: whatever they hold, the message is
      the phase's. */
  lemma PhaseFailureMasksTargets(m: BuildOperationMetadata, targets: seq<TargetEntry>)
    requires SomePhaseFailed(m.phaseStatuses)
    ensures OperationError(m.(targetBuilds := targets)) == OperationError(m)
  {
  }

  /** The operation `getOperation` reports for stored metadata and the
      stored response, if any. */
  function View(name: string, m: BuildOperationMetadata, stored: Option<BuildResponse>): (op: Operation)
    ensures op.name == name && op.metadata == Some(m)
    ensures op.done <==> IsDone(m)
    ensures op.error.Some? <==> m.currentPhase == Failed || m.currentPhase == Cancelled
    ensures m.currentPhase == Failed ==> op.error == Some(RpcStatus(CodeInternal, OperationError(m)))
    ensures m.currentPhase == Cancelled ==> op.error == Some(RpcStatus(CodeCancelled, CancelledByUser))
    ensures op.response == if m.currentPhase == Completed then stored else None
  {
    var base := Operation(name, Some(m), IsDone(m), None, None);
    if m.currentPhase == Failed then base.(error := Some(RpcStatus(CodeInternal, OperationError(m))))
    else if m.currentPhase == Cancelled then base.(error := Some(RpcStatus(CodeCancelled, CancelledByUser)))
    else if m.currentPhase == Completed then base.(response := stored)
    else base
  }

  /** A reported operation never carries both an error and a response, and
      one that is not done carries neither. */
  lemma ViewResultExclusive(name: string, m: BuildOperationMetadata, stored: Option<BuildResponse>)
    ensures !(View(name, m, stored).error.Some? && View(name, m, stored).response.Some?)
    ensures !View(name, m, stored).done ==> View(name, m, stored).error.None? && View(name, m, stored).response.None?
  {
  }

  /** `extractResourceName`: the resource an operation's requested target
      names, as the table removes it from its index. */
  function ExtractResourceName(m: BuildOperationMetadata): (r: string)
    ensures r == UnknownLake || r == UnknownResource ||
      (StartsWith(r, UnknownBundles) && |r| > |UnknownBundles| && !HasChar(r[|UnknownBundles|..], ':'))
  {
    var t := m.requestedTarget;
    if t == LakeTarget then UnknownLake
    else if StartsWith(t, BundlesTarget) then
      var path := t[|BundlesTarget|..];
      var colon := Find(path, ":");
      if colon.Some? && colon.value > 0 then
        var r := UnknownBundles + path[..colon.value];
        assert r[|UnknownBundles|..] == path[..colon.value];
        assert !HasChar(path[..colon.value], ':') by {
          forall j | 0 <= j < colon.value ensures path[j] != ':' {
            assert !OccursAt(path, ":", j);
          }
        }
        r
      else UnknownResource
    else UnknownResource
  }

  /** A bundle target `//bundles/<name>:<rest>` names the bundle
      `lakes/unknown/bundles/<name>`. */
  lemma BundleTargetResource(m: BuildOperationMetadata, name: string, rest: string)
    requires name != "" && !HasChar(name, ':')
    requires m.requestedTarget == BundlesTarget + name + ":" + rest
    ensures ExtractResourceName(m) == UnknownBundles + name
  {
    var t := m.requestedTarget;
    assert StartsWith(t, BundlesTarget) by {
      assert t[..|BundlesTarget|] == BundlesTarget;
    }
    assert t != LakeTarget by {
      assert t[2] == 'b';
    }
    var path := t[|BundlesTarget|..];
    assert path == name + ":" + rest;
    assert OccursAt(path, ":", |name|);
    forall j | 0 <= j < |name| ensures !OccursAt(path, ":", j) {
      assert path[j] == name[j];
    }
    assert Find(path, ":") == Some(|name|);
    assert path[..|name|] == name;
  }

  /** `ConcurrentHashMap.remove(key, value)`: the entry goes only if it
      maps `key` to `value`. */
  function RemoveIfMapped(index: map<string, string>, key: string, value: string): (r: map<string, string>)
    ensures key in index && index[key] == value ==> r == index - {key}
    ensures !(key in index && index[key] == value) ==> r == index
  {
    if key in index && index[key] == value then index - {key} else index
  }

  /** Finishing or deleting an operation removes its index entry only under
      the name `extractResourceName` derives, which is never a resource
      name of the `lakes/<lake>/bundles/<bundle>` form for a lake other than
      `unknown`: such an entry stays behind. */
  lemma StaleIndexEntry(index: map<string, string>, resource: string, name: string, m: BuildOperationMetadata)
    requires resource in index && index[resource] == name
    requires !StartsWith(resource, UnknownLake) && resource != UnknownResource
    ensures resource in RemoveIfMapped(index, ExtractResourceName(m), name)
    ensures RemoveIfMapped(index, ExtractResourceName(m), name)[resource] == name
  {
    var key := ExtractResourceName(m);
    if StartsWith(key, UnknownBundles) {
      assert key[..|UnknownLake|] == UnknownBundles[..|UnknownLake|];
    }
  }

  /** The page size `listOperations` applies. */
  function PageLimit(pageSize: int): (r: int)
    ensures r > 0
    ensures pageSize > 0 ==> r == pageSize
  {
    if pageSize > 0 then pageSize else MaxInt
  }

  /** The operations `shutdown` cancels: stored, not done, with a token. */
  ghost function Running(operations: map<string, BuildOperationMetadata>,
                         tokens: map<string, CancellationToken>): set<string>
  {
    set n | n in operations && !IsDone(operations[n]) && n in tokens
  }

  /** The index after `remove(resource, name)` for every name in `names`,
      each under the resource derived from its metadata: an entry goes
      exactly when it maps its key to such a name whose derived resource
      is that key. */
  function Unindexed(index: map<string, string>, operations: map<string, BuildOperationMetadata>,
                     names: set<string>): (r: map<string, string>)
    ensures r.Keys <= index.Keys
    ensures forall k | k in r :: r[k] == index[k]
    ensures forall k | k in index ::
      k !in r <==> index[k] in names && index[k] in operations && ExtractResourceName(operations[index[k]]) == k
  {
    map k | k in index && !(index[k] in names && index[k] in operations &&
                            ExtractResourceName(operations[index[k]]) == k) :: index[k]
  }

  /** Moving one name from the pending set to the done set keeps their
      union and keeps them disjoint. */
  lemma MoveOne(done: set<string>, pending: set<string>, n: string)
    requires n in pending && done !! pending
    ensures (done + {n}) + (pending - {n}) == done + pending
    ensures (done + {n}) !! (pending - {n})
  {
  }

  /** No name of `names` holds the token object of `n`. */
  predicate SharesNoToken(tokens: map<string, CancellationToken>, n: string, names: set<string>)
    requires n in tokens
  {
    forall m | m in names && m in tokens :: tokens[m] != tokens[n]
  }

  /** Sharing no token with a larger set means sharing none with the
      smaller one nor with the added name. */
  lemma SharesNoTokenStep(tokens: map<string, CancellationToken>, done: set<string>, n: string)
    ensures forall m | m in tokens && SharesNoToken(tokens, m, done + {n}) ::
      SharesNoToken(tokens, m, done) && (n in tokens ==> tokens[m] != tokens[n])
  {
  }

  /** Removing no name leaves the index as it is. */
  lemma UnindexedNone(index: map<string, string>, operations: map<string, BuildOperationMetadata>)
    ensures Unindexed(index, operations, {}) == index
  {
  }

  /** One more `remove(resource, name)` extends the set of removed names,
      whatever order the names come in. */
  lemma UnindexedStep(index: map<string, string>, operations: map<string, BuildOperationMetadata>,
                      names: set<string>, n: string)
    requires n in operations
    ensures RemoveIfMapped(Unindexed(index, operations, names), ExtractResourceName(operations[n]), n)
      == Unindexed(index, operations, names + {n})
  {
    var before := Unindexed(index, operations, names);
    var after := RemoveIfMapped(before, ExtractResourceName(operations[n]), n);
    var want := Unindexed(index, operations, names + {n});
    assert after.Keys == want.Keys;
  }

  class OperationManager {
    var operations: map<string, BuildOperationMetadata>
    var tokens: map<string, CancellationToken>
    var completionTimes: map<string, int>
    var responses: map<string, BuildResponse>
    /** `activeOperationsByResource`: resource name to operation name. */
    var active: map<string, string>

    constructor()
      ensures operations == map[] && tokens == map[] && completionTimes == map[]
      ensures responses == map[] && active == map[]
    {
      operations := map[];
      tokens := map[];
      completionTimes := map[];
      responses := map[];
      active := map[];
    }

    /** `isOperationActive`. */
    predicate IsActive(name: string)
      reads this
    {
      name in operations && !IsDone(operations[name])
    }

    /** The resource's indexed operation is still running. */
    predicate Busy(resource: string)
      reads this
    {
      resource in active && IsActive(active[resource])
    }

    /** `createOperation`: refuse with ABORTED, changing nothing, while the
        resource's indexed operation runs; otherwise record the metadata,
        the token and the index entry. */
    method CreateOperation(name: string, resource: string, metadata: BuildOperationMetadata,
                           token: CancellationToken) returns (op: Operation)
      modifies this
      ensures old(Busy(resource)) ==>
        && op == Operation(name, None, true,
                           Some(RpcStatus(CodeAborted, ResourceWord + resource + AlreadyActive + old(active[resource]))), None)
        && operations == old(operations) && tokens == old(tokens) && active == old(active)
      ensures !old(Busy(resource)) ==>
        && op == Operation(name, Some(metadata), false, None, None)
        && operations == old(operations)[name := metadata]
        && tokens == old(tokens)[name := token]
        && active == old(active)[resource := name]
      ensures completionTimes == old(completionTimes) && responses == old(responses)
    {
      if resource in active && IsActive(active[resource]) {
        var existing := active[resource];
        return Operation(name, None, true,
                         Some(RpcStatus(CodeAborted, ResourceWord + resource + AlreadyActive + existing)), None);
      }
      operations := operations[name := metadata];
      tokens := tokens[name := token];
      active := active[resource := name];
      op := Operation(name, Some(metadata), false, None, None);
    }

    /** `updateMetadata`: stores the metadata whatever its phase, even for
        a name never created or already finished. */
    method UpdateMetadata(name: string, metadata: BuildOperationMetadata)
      modifies this
      ensures operations == old(operations)[name := metadata]
      ensures tokens == old(tokens) && completionTimes == old(completionTimes)
      ensures responses == old(responses) && active == old(active)
    {
      operations := operations[name := metadata];
    }

    /** `updateMetadata` as it is evidently meant to behave once an
        operation can be cancelled while its build runs: an operation that
        already finished keeps its final metadata. */
    method UpdateMetadataUnlessDone(name: string, metadata: BuildOperationMetadata)
      modifies this
      ensures name in old(operations) && IsDone(old(operations[name])) ==> operations == old(operations)
      ensures !(name in old(operations) && IsDone(old(operations[name]))) ==>
        operations == old(operations)[name := metadata]
      ensures tokens == old(tokens) && completionTimes == old(completionTimes)
      ensures responses == old(responses) && active == old(active)
    {
      if !(name in operations && IsDone(operations[name])) {
        operations := operations[name := metadata];
      }
    }

    /** The stored response of an operation, if any. */
    function Stored(name: string): (r: Option<BuildResponse>)
      reads this
      ensures r.Some? <==> name in responses
      ensures r.Some? ==> r.value == responses[name]
    {
      if name in responses then Some(responses[name]) else None
    }

    /** `getOperation`. */
    function GetOperation(name: string): (r: Option<Operation>)
      reads this
      ensures r.Some? <==> name in operations
      ensures r.Some? ==> r.value == View(name, operations[name], Stored(name))
    {
      if name in operations then Some(View(name, operations[name], Stored(name))) else None
    }

    /** The operations of the names in `order` that are stored, in that
        order. */
    function Listed(order: seq<string>): (r: seq<Operation>)
      reads this
      ensures |r| <= |order|
      ensures forall i :: 0 <= i < |r| ==> r[i].name in operations && GetOperation(r[i].name) == Some(r[i])
      ensures (forall n :: n in order ==> n in operations) ==>
        |r| == |order| && forall i :: 0 <= i < |r| ==> r[i].name == order[i]
    {
      if order == [] then []
      else
        var rest := Listed(order[1..]);
        assert forall n :: n in order[1..] ==> n in order;
        if order[0] in operations then [View(order[0], operations[order[0]], Stored(order[0]))] + rest
        else rest
    }

    /** `listOperations`: the stored operations in iteration order `order`,
        at most `pageSize` of them when it is positive. */
    function ListOperations(order: seq<string>, pageSize: int): (r: seq<Operation>)
      reads this
      ensures |r| <= PageLimit(pageSize)
      ensures forall i :: 0 <= i < |r| ==> r[i].name in operations && GetOperation(r[i].name) == Some(r[i])
      ensures (forall n :: n in order ==> n in operations) ==>
        |r| == (if |order| < PageLimit(pageSize) then |order| else PageLimit(pageSize)) &&
        forall i :: 0 <= i < |r| ==> r[i].name == order[i]
    {
      var all := Listed(order);
      if |all| <= PageLimit(pageSize) then all else all[..PageLimit(pageSize)]
    }

    /** `cancelOperation`: a stored, running operation with a token has
        its token cancelled, its phase set to CANCELLED and is marked
        complete; anything else is refused without change. */
    method CancelOperation(name: string, now: int) returns (cancelled: bool)
      modifies this, tokens.Values
      ensures cancelled <==> old(name in operations && name in tokens && !IsDone(operations[name]))
      ensures tokens == old(tokens) && responses == old(responses)
      ensures cancelled ==>
        && tokens[name].cancelled
        && operations == old(operations)[name := old(operations[name]).(currentPhase := Cancelled)]
        && completionTimes == old(completionTimes)[name := now]
        && active == RemoveIfMapped(old(active), ExtractResourceName(old(operations[name])), name)
      ensures !cancelled ==>
        operations == old(operations) && completionTimes == old(completionTimes) && active == old(active)
      ensures forall t | t in old(tokens.Values) && !(cancelled && t == tokens[name]) :: t.cancelled == old(t.cancelled)
    {
      if name in operations && name in tokens && !IsDone(operations[name]) {
        var metadata := operations[name];
        var token := tokens[name];
        token.Cancel();
        operations := operations[name := metadata.(currentPhase := Cancelled)];
        completionTimes := completionTimes[name := now];
        active := RemoveIfMapped(active, ExtractResourceName(metadata), name);
        return true;
      }
      return false;
    }

    /** `completeOperation`: any stored operation, even one already
        cancelled or failed, becomes COMPLETED with the response stored. */
    method CompleteOperation(name: string, response: BuildResponse, now: int)
      modifies this
      ensures tokens == old(tokens)
      ensures name in old(operations) ==>
        && operations == old(operations)[name := old(operations[name]).(currentPhase := Completed)]
        && responses == old(responses)[name := response]
        && completionTimes == old(completionTimes)[name := now]
        && active == RemoveIfMapped(old(active), ExtractResourceName(old(operations[name])), name)
      ensures name !in old(operations) ==>
        operations == old(operations) && responses == old(responses) &&
        completionTimes == old(completionTimes) && active == old(active)
    {
      if name in operations {
        var metadata := operations[name];
        operations := operations[name := metadata.(currentPhase := Completed)];
        responses := responses[name := response];
        completionTimes := completionTimes[name := now];
        active := RemoveIfMapped(active, ExtractResourceName(metadata), name);
      }
    }

    /** `failOperation`: any stored operation becomes FAILED; the error
        text is not kept. */
    method FailOperation(name: string, error: string, now: int)
      modifies this
      ensures tokens == old(tokens) && responses == old(responses)
      ensures name in old(operations) ==>
        && operations == old(operations)[name := old(operations[name]).(currentPhase := Failed)]
        && completionTimes == old(completionTimes)[name := now]
        && active == RemoveIfMapped(old(active), ExtractResourceName(old(operations[name])), name)
      ensures name !in old(operations) ==>
        operations == old(operations) && completionTimes == old(completionTimes) && active == old(active)
    {
      if name in operations {
        var metadata := operations[name];
        operations := operations[name := metadata.(currentPhase := Failed)];
        completionTimes := completionTimes[name := now];
        active := RemoveIfMapped(active, ExtractResourceName(metadata), name);
      }
    }

    /** `get`: the stored metadata, `null` as `None`. */
    function Get(name: string): (r: Option<BuildOperationMetadata>)
      reads this
      ensures r.Some? <==> name in operations
      ensures r.Some? ==> r.value == operations[name]
    {
      if name in operations then Some(operations[name]) else None
    }

    /** `deleteOperation`: the name leaves all four name-keyed maps; the
        index entry goes only when metadata was stored. */
    method DeleteOperation(name: string) returns (deleted: bool)
      modifies this
      ensures deleted <==> name in old(operations)
      ensures operations == old(operations) - {name} && tokens == old(tokens) - {name}
      ensures completionTimes == old(completionTimes) - {name} && responses == old(responses) - {name}
      ensures active == if deleted then RemoveIfMapped(old(active), ExtractResourceName(old(operations)[name]), name)
                        else old(active)
    {
      deleted := name in operations;
      if deleted {
        var metadata := operations[name];
        active := RemoveIfMapped(active, ExtractResourceName(metadata), name);
      }
      operations := operations - {name};
      tokens := tokens - {name};
      completionTimes := completionTimes - {name};
      responses := responses - {name};
    }

    /** The table after cancelling the names in `done`, starting from
        the operations, completion times and index `before`,
        `timesBefore` and `activeBefore`. */
    ghost predicate CancelledFrom(before: map<string, BuildOperationMetadata>, timesBefore: map<string, int>,
                                  activeBefore: map<string, string>, done: set<string>, now: int)
      reads this
    {
      && operations.Keys == before.Keys
      && (forall n | n in operations ::
            operations[n] == if n in done then before[n].(currentPhase := Cancelled) else before[n])
      && completionTimes.Keys == timesBefore.Keys + done
      && (forall n | n in completionTimes :: completionTimes[n] == if n in done then now else timesBefore[n])
      && active == Unindexed(activeBefore, before, done)
    }

    /** The tokens of the names are set. */
    ghost predicate TokensSet(names: set<string>)
      reads this, tokens.Values
    {
      forall n | n in names && n in tokens :: tokens[n].cancelled
    }

    /** One turn of `shutdown`'s loop: `cancelOperation` on a running
        operation that has not been cancelled yet. */
    method CancelStep(n: string, now: int, ghost before: map<string, BuildOperationMetadata>,
                      ghost timesBefore: map<string, int>, ghost activeBefore: map<string, string>,
                      ghost done: set<string>)
      requires CancelledFrom(before, timesBefore, activeBefore, done, now) && TokensSet(done)
      requires n in before && n !in done && !IsDone(before[n]) && n in tokens
      modifies this, tokens.Values
      ensures tokens == old(tokens) && responses == old(responses)
      ensures CancelledFrom(before, timesBefore, activeBefore, done + {n}, now) && TokensSet(done + {n})
      ensures forall m | m in tokens && old(tokens[m].cancelled) :: tokens[m].cancelled
      ensures forall m | m in tokens && tokens[m] != tokens[n] :: tokens[m].cancelled == old(tokens[m].cancelled)
    {
      assert operations[n] == before[n];
      var ok := CancelOperation(n, now);
      UnindexedStep(activeBefore, before, done, n);
      forall m | m in tokens && old(tokens[m].cancelled)
        ensures tokens[m].cancelled
      {
        assert tokens[m] in old(tokens.Values);
      }
      forall m | m in tokens && tokens[m] != tokens[n]
        ensures tokens[m].cancelled == old(tokens[m].cancelled)
      {
        assert tokens[m] in old(tokens.Values);
      }
      forall m | m in done + {n} && m in tokens
        ensures tokens[m].cancelled
      {
        assert tokens[m] in old(tokens.Values);
      }
    }

    /** The cancelling half of `shutdown`: every running operation that
        has a token is cancelled through `cancelOperation`; one stored
        without a token (through `updateMetadata` alone) keeps running.
        Each cancelled operation's token is set, its completion time is
        `now`, and its index entry is removed under its derived resource
        name; the order of the cancellations does not matter. */
    method CancelAll(now: int)
      modifies this, tokens.Values
      ensures tokens == old(tokens) && responses == old(responses)
      ensures operations.Keys == old(operations).Keys
      ensures forall n | n in operations ::
        operations[n] == if n in Running(old(operations), old(tokens)) then old(operations[n]).(currentPhase := Cancelled)
                         else old(operations[n])
      ensures forall n | n in operations :: IsDone(operations[n]) || n !in tokens
      ensures forall n | n in Running(old(operations), old(tokens)) :: tokens[n].cancelled
      ensures forall n | n in tokens && old(tokens[n].cancelled) :: tokens[n].cancelled
      ensures forall n | n in tokens && SharesNoToken(tokens, n, Running(old(operations), old(tokens))) ::
        tokens[n].cancelled == old(tokens[n].cancelled)
      ensures completionTimes.Keys == old(completionTimes).Keys + Running(old(operations), old(tokens))
      ensures forall n | n in completionTimes ::
        completionTimes[n] == if n in Running(old(operations), old(tokens)) then now else old(completionTimes[n])
      ensures active == Unindexed(old(active), old(operations), Running(old(operations), old(tokens)))
    {
      var pending := set n | n in operations && IsActive(n) && n in tokens;
      ghost var done: set<string> := {};
      ghost var before := operations;
      ghost var timesBefore := completionTimes;
      ghost var activeBefore := active;
      ghost var running := Running(before, tokens);
      assert pending == running;
      UnindexedNone(active, before);
      while pending != {}
        invariant tokens == old(tokens) && responses == old(responses)
        invariant done + pending == running && done !! pending
        invariant CancelledFrom(before, timesBefore, activeBefore, done, now) && TokensSet(done)
        invariant forall n | n in tokens && old(tokens[n].cancelled) :: tokens[n].cancelled
        invariant forall n | n in tokens && SharesNoToken(tokens, n, done) :: tokens[n].cancelled == old(tokens[n].cancelled)
        decreases pending
      {
        var n :| n in pending;
        CancelStep(n, now, before, timesBefore, activeBefore, done);
        MoveOne(done, pending, n);
        SharesNoTokenStep(tokens, done, n);
        pending := pending - {n};
        done := done + {n};
      }
      assert done == running;
      CancelledAll(before, timesBefore, activeBefore, now);
    }

    /** With every running operation cancelled, the table is the one
        `CancelAll` promises, and every operation with a token is done. */
    lemma CancelledAll(before: map<string, BuildOperationMetadata>, timesBefore: map<string, int>,
                       activeBefore: map<string, string>, now: int)
      requires CancelledFrom(before, timesBefore, activeBefore, Running(before, tokens), now)
      ensures operations.Keys == before.Keys
      ensures forall n | n in operations ::
        operations[n] == if n in Running(before, tokens) then before[n].(currentPhase := Cancelled) else before[n]
      ensures forall n | n in operations :: IsDone(operations[n]) || n !in tokens
      ensures completionTimes.Keys == timesBefore.Keys + Running(before, tokens)
      ensures forall n | n in completionTimes ::
        completionTimes[n] == if n in Running(before, tokens) then now else timesBefore[n]
      ensures active == Unindexed(activeBefore, before, Running(before, tokens))
    {
    }
  }
}
