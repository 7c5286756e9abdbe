/**
 * The registry (Balrog) as the core sees it: the requests handed to the
 * submitter, creator, pusher and scheduler clients, and the fail-fast way in
 * which a flow issues them one after the other.
 *
 * A registry call is the client's `run(...)` wrapped in `retry`; the model
 * only keeps its final verdict, given by the oracle `accepts`.
 */
module Registry {
  import opened JsonValues

  /** The `(balrog_username, balrog_password)` pair of the chosen server. */
  datatype Auth = Auth(username: Json, password: Json)

  /** What every client constructor receives: `api_root`, `auth` and `dummy`. */
  datatype Client = Client(apiRoot: Json, auth: Auth, dummy: Json)

  /** The keyword arguments of `ReleaseCreatorV9.run`. */
  datatype CreationArgs = CreationArgs(
    appVersion: Json, productName: Json, version: Json, buildNumber: Json,
    updateChannels: Json, ftpServer: Json, bouncerServer: Json, enUSPlatforms: Json,
    hashFunction: Json, partialUpdates: Json, requiresMirrors: Json, updateLine: Json)

  /** The keyword arguments of `ReleasePusher.run` (`productName`, `version`, `build_number`, `rule_ids`). */
  datatype PushArgs = PushArgs(productName: Json, version: Json, buildNumber: Json, ruleIds: Json)

  /** One registry request: the client that sends it and the arguments of its `run`. */
  datatype Call =
    | SubmitRelease(client: Client, suffix: Json, data: Dict)          // ReleaseSubmitterV9(suffix=...).run(**data)
    | SubmitNightly(client: Client, urlReplacements: Json, data: Dict)   // NightlySubmitterV4(url_replacements=...).run(**data)
    | CreateRelease(client: Client, suffix: Json, completeMarFilenamePattern: Json,
                    completeMarBouncerProductPattern: Json, creation: CreationArgs)  // ReleaseCreatorV9(...).run(...)
    | PushRelease(client: Client, suffix: Json, push: PushArgs)                      // ReleasePusher(suffix=...).run(...)
    | ScheduleRelease(client: Client, suffix: Json, positional: seq<Json>)         // ReleaseScheduler(suffix=...).run(*args)

  /** How a flow ends: every call made, or the exception that stopped it. */
  datatype Outcome = Completed | Aborted(error: Error)

  /** The calls a flow made, in order, and how it ended. */
  datatype Run = Run(trace: seq<Call>, outcome: Outcome)

  /** There are at least `k` steps, and every step before `k` built its request and the registry accepted it. */
  ghost predicate AllAcceptedBefore(steps: seq<Result<Call>>, accepts: Call -> bool, k: int) {
    && k <= |steps|
    && forall i :: 0 <= i < k ==> steps[i].Ok? && accepts(steps[i].value)
  }

  /**
   * Issues the requests of `steps` in order. Building a request may raise
   * (`Err`), in which case nothing is sent; a request the registry rejects is
   * sent and then stops the flow. Nothing after the first failure runs and
   * nothing already sent is undone.
   */
  function FailFast(steps: seq<Result<Call>>, accepts: Call -> bool): (r: Run)
    ensures |r.trace| <= |steps|
    decreases |steps|
  {
    if steps == [] then Run([], Completed)
    else match steps[0]
      case Err(e) => Run([], Aborted(e))
      case Ok(c) =>
        if !accepts(c) then Run([c], Aborted(RegistryError))
        else
          var rest := FailFast(steps[1..], accepts);
          Run([c] + rest.trace, rest.outcome)
  }

  /**
   * What a fail-fast run made and why it stopped: the calls made are the
   * first requests in order; it completes exactly when every request was
   * built and accepted; otherwise it stopped either at the one rejected call,
   * which is the last call made, or at the first request that could not be
   * built, which was never sent.
   */
  lemma {:induction false} FailFastSpec(steps: seq<Result<Call>>, accepts: Call -> bool)
    ensures var r := FailFast(steps, accepts);
      && (forall i :: 0 <= i < |r.trace| ==> steps[i] == Ok(r.trace[i]))
      && (r.outcome == Completed <==> AllAcceptedBefore(steps, accepts, |steps|))
      && (r.outcome == Completed ==> |r.trace| == |steps|)
      && (r.outcome.Aborted? ==>
           if r.outcome.error == RegistryError && r.trace != [] && !accepts(r.trace[|r.trace| - 1])
           then AllAcceptedBefore(steps, accepts, |r.trace| - 1)
           else AllAcceptedBefore(steps, accepts, |r.trace|) && |r.trace| < |steps|
                && steps[|r.trace|] == Err(r.outcome.error))
    decreases |steps|
  {
    if steps != [] && steps[0].Ok? && accepts(steps[0].value) {
      FailFastSpec(steps[1..], accepts);
    }
  }

  /** Running two batches of steps back to back. */
  lemma {:induction false} FailFastAppend(p: seq<Result<Call>>, q: seq<Result<Call>>, accepts: Call -> bool)
    ensures FailFast(p + q, accepts) ==
      (var a := FailFast(p, accepts);
       if a.outcome == Completed then Run(a.trace + FailFast(q, accepts).trace, FailFast(q, accepts).outcome)
       else a)
    decreases |p|
  {
    if p == [] {
      assert p + q == q;
    } else {
      assert (p + q)[0] == p[0];
      assert (p + q)[1..] == p[1..] + q;
      match p[0]
      case Err(e) =>
      case Ok(c) =>
        if accepts(c) {
          FailFastAppend(p[1..], q, accepts);
          var a := FailFast(p[1..], accepts);
          if a.outcome == Completed {
            assert [c] + (a.trace + FailFast(q, accepts).trace) == ([c] + a.trace) + FailFast(q, accepts).trace;
          }
        }
    }
  }

  /** One more step after a prefix that completed: how a loop body extends the trace. */
  lemma FailFastStep(p: seq<Result<Call>>, s: Result<Call>, q: seq<Result<Call>>,
                     accepts: Call -> bool, trace: seq<Call>)
    requires FailFast(p, accepts) == Run(trace, Completed)
    ensures s.Err? ==> FailFast(p + [s] + q, accepts) == Run(trace, Aborted(s.error))
    ensures s.Ok? && !accepts(s.value) ==>
      FailFast(p + [s] + q, accepts) == Run(trace + [s.value], Aborted(RegistryError))
    ensures s.Ok? && accepts(s.value) ==> FailFast(p + [s], accepts) == Run(trace + [s.value], Completed)
  {
    FailFastAppend(p, [s] + q, accepts);
    assert p + [s] + q == p + ([s] + q);
    assert ([s] + q)[1..] == q;
    FailFastAppend(p, [s], accepts);
    assert [s][1..] == [];
  }

  /** Call `k` is the request at `k`. */
  lemma FailFastCallAt(steps: seq<Result<Call>>, accepts: Call -> bool, k: nat)
    requires k < |FailFast(steps, accepts).trace|
    ensures k < |steps| && steps[k] == Ok(FailFast(steps, accepts).trace[k])
  {
    FailFastSpec(steps, accepts);
  }

  /** A run that completes made one call per request. */
  lemma FailFastCompletedLength(steps: seq<Result<Call>>, accepts: Call -> bool)
    requires FailFast(steps, accepts).outcome == Completed
    ensures |FailFast(steps, accepts).trace| == |steps|
  {
    FailFastSpec(steps, accepts);
  }

  /** Every call but the last one made was accepted. */
  lemma FailFastAcceptedBeforeLast(steps: seq<Result<Call>>, accepts: Call -> bool)
    ensures var r := FailFast(steps, accepts);
      forall i :: 0 <= i < |r.trace| - 1 ==> accepts(r.trace[i])
  {
    var r := FailFast(steps, accepts);
    FailFastSpec(steps, accepts);
    forall i | 0 <= i < |r.trace| - 1
      ensures accepts(r.trace[i])
    {
      assert steps[i] == Ok(r.trace[i]);
    }
  }

  /**
   * When the request at `k` is the first one the registry rejects, the flow
   * sent exactly the requests up to and including it and stopped there.
   */
  lemma FailFastFirstRejection(steps: seq<Result<Call>>, accepts: Call -> bool, k: nat)
    requires k < |steps| && AllAcceptedBefore(steps, accepts, k)
    requires steps[k].Ok? && !accepts(steps[k].value)
    ensures FailFast(steps, accepts).outcome == Aborted(RegistryError)
    ensures |FailFast(steps, accepts).trace| == k + 1
  {
    FailFastSpec(steps, accepts);
  }

  /**
   * Nothing after a rejected request is sent: the run does not complete, and
   * if it got as far as that request, it is the last call and the failure.
   */
  lemma FailFastStopsAtRejection(steps: seq<Result<Call>>, accepts: Call -> bool, k: nat)
    requires k < |steps| && steps[k].Ok? && !accepts(steps[k].value)
    ensures var r := FailFast(steps, accepts);
      && |r.trace| <= k + 1
      && r.outcome != Completed
      && (|r.trace| == k + 1 ==> r.trace[k] == steps[k].value && r.outcome == Aborted(RegistryError))
  {
    FailFastSpec(steps, accepts);
  }

  /** Every request that can be built satisfies `P`. */
  ghost predicate AllBuiltSatisfy(steps: seq<Result<Call>>, P: Call -> bool) {
    forall k :: 0 <= k < |steps| && steps[k].Ok? ==> P(steps[k].value)
  }

  /** Every call made is one of the requests, so a property of all requests holds of every call. */
  lemma FailFastTraceFrom(steps: seq<Result<Call>>, accepts: Call -> bool, P: Call -> bool)
    requires AllBuiltSatisfy(steps, P)
    ensures var r := FailFast(steps, accepts);
      forall k :: 0 <= k < |r.trace| ==> P(r.trace[k])
  {
    var r := FailFast(steps, accepts);
    FailFastSpec(steps, accepts);
    forall k | 0 <= k < |r.trace|
      ensures P(r.trace[k])
    {
      assert steps[k] == Ok(r.trace[k]);
    }
  }

  /** Nothing at or after a step whose request cannot be built is sent. */
  lemma FailFastStopsAtBuildError(steps: seq<Result<Call>>, accepts: Call -> bool, k: nat)
    requires k < |steps| && steps[k].Err?
    ensures |FailFast(steps, accepts).trace| <= k
  {
    FailFastSpec(steps, accepts);
  }
}
