/**
 * `schedule`: one `ReleaseScheduler` request whose positional arguments are
 * the capitalized product, the version, the build number, the rules to
 * publish and the release ETA, with a falsy ETA sent as `None`.
 */
module Scheduling {
  import opened JsonValues
  import opened Strings
  import opened Registry

  /** `release_eta or None`: a falsy ETA (`""`, `null`, `0`, `false`, `[]`, `{}`) becomes `None`. */
  function EtaOrNone(eta: Json): (r: Json)
    ensures Truthy(eta) ==> r == eta
    ensures !Truthy(eta) ==> r == JNull
  {
    if Truthy(eta) then eta else JNull
  }

  /** The ETA sent is never the empty string, and a non-empty string is sent unchanged. */
  lemma EtaNeverEmpty(eta: Json)
    ensures EtaOrNone(eta) != JStr("")
    ensures eta == JStr("") ==> EtaOrNone(eta) == JNull
    ensures eta.JStr? && eta.s != "" ==> EtaOrNone(eta) == eta
  {
  }

  /** The payload keys `schedule` reads. */
  predicate HasScheduleKeys(payload: Dict) {
    && "product" in payload && "version" in payload && "build_number" in payload
    && "publish_rules" in payload && "release_eta" in payload
  }

  /** The positional arguments of `ReleaseScheduler.run`, evaluated left to right. */
  function ScheduleArgs(payload: Dict): (r: Result<seq<Json>>)
    ensures r.Ok? <==> HasScheduleKeys(payload) && payload["product"].JStr?
    ensures r.Ok? ==>
      && |r.value| == 5
      && r.value[0] == JStr(Capitalize(payload["product"].s))
      && r.value[1] == payload["version"]
      && r.value[2] == payload["build_number"]
      && r.value[3] == payload["publish_rules"]
      && r.value[4] == EtaOrNone(payload["release_eta"])
    ensures "product" !in payload ==> r == Err(KeyError("product"))
    ensures "product" in payload && !payload["product"].JStr? ==> r == Err(WrongType("product"))
  {
    var product :- Lookup(payload, "product");
    if !product.JStr? then Err(WrongType("product"))
    else
      var version :- Lookup(payload, "version");
      var buildNumber :- Lookup(payload, "build_number");
      var rules :- Lookup(payload, "publish_rules");
      var eta :- Lookup(payload, "release_eta");
      Ok([JStr(Capitalize(product.s)), version, buildNumber, rules, EtaOrNone(eta)])
  }

  /** The `ReleaseScheduler` request, or the exception raised while building it. */
  function ScheduleRequest(payload: Dict, config: Dict, auth: Auth): (r: Result<Call>)
    ensures r.Ok? <==> "api_root" in config && "dummy" in config && ScheduleArgs(payload).Ok?
    ensures r.Ok? ==>
      && r.value.ScheduleRelease?
      && r.value.client == Client(config["api_root"], auth, config["dummy"])
      && r.value.suffix == BlobSuffix(payload)
      && r.value.positional == ScheduleArgs(payload).value
    ensures r.Err? && "api_root" in config && "dummy" in config ==> r == Err(ScheduleArgs(payload).error)
  {
    var apiRoot :- Lookup(config, "api_root");
    var dummy :- Lookup(config, "dummy");
    var args :- ScheduleArgs(payload);
    Ok(ScheduleRelease(Client(apiRoot, auth, dummy), BlobSuffix(payload), args))
  }

  /** What `schedule` does: build the request, then send it once. */
  function ScheduleRun(payload: Dict, config: Dict, auth: Auth, accepts: Call -> bool): (r: Run)
    ensures |r.trace| <= 1
  {
    FailFast([ScheduleRequest(payload, config, auth)], accepts)
  }

  /**
   * Scheduling makes at most one call, the scheduler request itself; it
   * completes exactly when that request could be built and was accepted, and
   * a request that cannot be built is never sent.
   */
  lemma ScheduleRunSpec(payload: Dict, config: Dict, auth: Auth, accepts: Call -> bool)
    ensures var r := ScheduleRun(payload, config, auth, accepts);
      var c := ScheduleRequest(payload, config, auth);
      && (c.Err? ==> r == Run([], Aborted(c.error)))
      && (c.Ok? ==> r.trace == [c.value])
      && (r.outcome == Completed <==> c.Ok? && accepts(c.value))
  {
    var c := ScheduleRequest(payload, config, auth);
    assert [c][0] == c && [c][1..] == [];
    if c.Ok? && accepts(c.value) {
      assert FailFast([c][1..], accepts) == Run([], Completed);
    }
  }

  /**
   * The call of `schedule`, if made, is a scheduler request sent with the
   * configuration's `api_root` and `dummy` and the given credentials.
   */
  lemma ScheduleRunCalls(payload: Dict, config: Dict, auth: Auth, accepts: Call -> bool)
    ensures var r := ScheduleRun(payload, config, auth, accepts);
      forall k :: 0 <= k < |r.trace| ==>
        && r.trace[k].ScheduleRelease?
        && "api_root" in config && "dummy" in config
        && r.trace[k].client == Client(config["api_root"], auth, config["dummy"])
  {
    ScheduleRunSpec(payload, config, auth, accepts);
  }
}
