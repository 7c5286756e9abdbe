/**
 * `submit_toplevel`: one `ReleaseCreatorV9` request per key of the
 * payload's `update_line` (or a single one for the empty suffix), each
 * carrying the parsed partial versions, followed by exactly one
 * `ReleasePusher` request, all sent fail-fast.
 */
module TopLevel {
  import opened JsonValues
  import opened Strings
  import opened Registry
  import opened PartialVersions

  /** `task['payload'].get('update_line', {})`. */
  function UpdateLine(payload: Dict): (r: Json)
    ensures "update_line" in payload ==> r == payload["update_line"]
    ensures "update_line" !in payload ==> r == JObj(map[])
  {
    GetOr(payload, "update_line", JObj(map[]))
  }

  /** `order` lists every key of `keys` exactly once. */
  predicate IsKeyOrder(order: seq<string>, keys: set<string>) {
    && (forall i, j :: 0 <= i < j < |order| ==> order[i] != order[j])
    && (forall k :: k in order ==> k in keys)
    && (forall k :: k in keys ==> k in order)
  }

  /**
   * The order in which `update_line.keys()` yields its keys; Python's
   * dictionary order is not modelled, so it is an input.
   */
  predicate KeyOrderFor(payload: Dict, order: seq<string>) {
    UpdateLine(payload).JObj? ==> IsKeyOrder(order, UpdateLine(payload).fields.Keys)
  }

  /**
   * `update_line.keys() or ['']`: the keys in order, the empty suffix alone
   * when there are none, and an exception when `update_line` is not a dict.
   */
  function UpdateLineSuffixes(payload: Dict, order: seq<string>): (r: Result<seq<string>>)
    requires KeyOrderFor(payload, order)
    ensures r.Ok? <==> UpdateLine(payload).JObj?
    ensures r.Err? ==> r.error == WrongType("update_line")
    ensures r.Ok? && UpdateLine(payload).fields == map[] ==> r.value == [""]
    ensures r.Ok? && UpdateLine(payload).fields != map[] ==>
      forall k :: k in r.value <==> k in UpdateLine(payload).fields
    ensures r.Ok? ==> r.value != []
  {
    var updateLine := UpdateLine(payload);
    if !updateLine.JObj? then Err(WrongType("update_line"))
    else if updateLine.fields == map[] then Ok([""])
    else
      assert order != [] by {
        var k :| k in updateLine.fields;
        assert k in order;
      }
      Ok(order)
  }

  /** A list of distinct elements has as many elements as its set. */
  lemma {:induction false} DistinctCard(order: seq<string>)
    requires forall i, j :: 0 <= i < j < |order| ==> order[i] != order[j]
    ensures |set k | k in order| == |order|
    decreases |order|
  {
    if order != [] {
      var rest := order[1..];
      DistinctCard(rest);
      var s := set k | k in order;
      var t := set k | k in rest;
      assert s == t + {order[0]};
      assert order[0] !in t;
    }
  }

  /** One creation request per key of `update_line`, or one alone when it has none. */
  lemma UpdateLineSuffixCount(payload: Dict, order: seq<string>)
    requires KeyOrderFor(payload, order) && UpdateLine(payload).JObj?
    ensures |UpdateLineSuffixes(payload, order).value| ==
      (if UpdateLine(payload).fields == map[] then 1 else |UpdateLine(payload).fields|)
  {
    var keys := UpdateLine(payload).fields.Keys;
    if keys != {} {
      DistinctCard(order);
      assert (set k | k in order) == keys;
    }
  }

  /** `task['payload'].get('update_line', {}).get(suffix)`. */
  function UpdateLineEntry(payload: Dict, suffix: string): (r: Json)
    ensures UpdateLine(payload).JObj? && suffix in UpdateLine(payload).fields ==> r == UpdateLine(payload).fields[suffix]
    ensures !UpdateLine(payload).JObj? || suffix !in UpdateLine(payload).fields ==> r == JNull
  {
    var updateLine := UpdateLine(payload);
    if updateLine.JObj? then GetOr(updateLine.fields, suffix, JNull) else JNull
  }

  /** The payload keys a creation request reads. */
  predicate HasCreationKeys(payload: Dict) {
    && "app_version" in payload && "product" in payload && "version" in payload
    && "build_number" in payload && "channel_names" in payload && "archive_domain" in payload
    && "download_domain" in payload && "platforms" in payload && "require_mirrors" in payload
  }

  /**
   * The keyword arguments of `ReleaseCreatorV9.run` for one suffix, read from
   * the payload in the order the call lists them.
   */
  function CreationArgsFor(payload: Dict, partials: Partials, suffix: string): (r: Result<CreationArgs>)
    ensures r.Ok? <==> HasCreationKeys(payload) && payload["product"].JStr?
    ensures r.Ok? ==>
      && r.value.productName == JStr(Capitalize(payload["product"].s))
      && r.value.hashFunction == JStr("sha512")
      && r.value.partialUpdates == PartialsJson(partials)
      && r.value.updateLine == UpdateLineEntry(payload, suffix)
    ensures r.Ok? ==>
      && r.value.appVersion == payload["app_version"] && r.value.version == payload["version"]
      && r.value.buildNumber == payload["build_number"] && r.value.updateChannels == payload["channel_names"]
      && r.value.ftpServer == payload["archive_domain"] && r.value.bouncerServer == payload["download_domain"]
      && r.value.enUSPlatforms == payload["platforms"] && r.value.requiresMirrors == payload["require_mirrors"]
  {
    var appVersion :- Lookup(payload, "app_version");
    var product :- Lookup(payload, "product");
    if !product.JStr? then Err(WrongType("product"))
    else
      var version :- Lookup(payload, "version");
      var buildNumber :- Lookup(payload, "build_number");
      var channels :- Lookup(payload, "channel_names");
      var archive :- Lookup(payload, "archive_domain");
      var download :- Lookup(payload, "download_domain");
      var platforms :- Lookup(payload, "platforms");
      var mirrors :- Lookup(payload, "require_mirrors");
      Ok(CreationArgs(appVersion, JStr(Capitalize(product.s)), version, buildNumber, channels, archive,
                      download, platforms, JStr("sha512"), PartialsJson(partials), mirrors,
                      UpdateLineEntry(payload, suffix)))
  }

  /** The `ReleaseCreatorV9` request for one suffix: the blob suffix followed by the key. */
  function CreateRequest(payload: Dict, config: Dict, auth: Auth, partials: Partials, suffix: string): (r: Result<Call>)
    ensures r.Ok? <==> "api_root" in config && "dummy" in config && BlobSuffix(payload).JStr?
                       && CreationArgsFor(payload, partials, suffix).Ok?
    ensures r.Ok? ==>
      && r.value.CreateRelease?
      && r.value.client == Client(config["api_root"], auth, config["dummy"])
      && r.value.suffix == JStr(BlobSuffix(payload).s + suffix)
      && r.value.completeMarFilenamePattern == GetOr(payload, "complete_mar_filename_pattern", JNull)
      && r.value.completeMarBouncerProductPattern == GetOr(payload, "complete_mar_bouncer_product_pattern", JNull)
      && r.value.creation == CreationArgsFor(payload, partials, suffix).value
  {
    var apiRoot :- Lookup(config, "api_root");
    var dummy :- Lookup(config, "dummy");
    var blobSuffix := BlobSuffix(payload);
    if !blobSuffix.JStr? then Err(WrongType("blob_suffix"))
    else
      var args :- CreationArgsFor(payload, partials, suffix);
      Ok(CreateRelease(Client(apiRoot, auth, dummy), JStr(blobSuffix.s + suffix),
                       GetOr(payload, "complete_mar_filename_pattern", JNull),
                       GetOr(payload, "complete_mar_bouncer_product_pattern", JNull), args))
  }

  /**
   * The `ReleasePusher` request: the base blob suffix, whatever its type,
   * and the rules to update.
   */
  function PushRequest(payload: Dict, config: Dict, auth: Auth): (r: Result<Call>)
    ensures r.Ok? <==> && "api_root" in config && "dummy" in config && "product" in payload
                       && payload["product"].JStr? && "version" in payload && "build_number" in payload
                       && "rules_to_update" in payload
    ensures r.Ok? ==>
      && r.value.PushRelease?
      && r.value.client == Client(config["api_root"], auth, config["dummy"])
      && r.value.suffix == BlobSuffix(payload)
      && r.value.push.productName == JStr(Capitalize(payload["product"].s))
      && r.value.push.version == payload["version"]
      && r.value.push.buildNumber == payload["build_number"]
      && r.value.push.ruleIds == payload["rules_to_update"]
  {
    var apiRoot :- Lookup(config, "api_root");
    var dummy :- Lookup(config, "dummy");
    var product :- Lookup(payload, "product");
    if !product.JStr? then Err(WrongType("product"))
    else
      var version :- Lookup(payload, "version");
      var buildNumber :- Lookup(payload, "build_number");
      var rules :- Lookup(payload, "rules_to_update");
      Ok(PushRelease(Client(apiRoot, auth, dummy), BlobSuffix(payload),
                     PushArgs(JStr(Capitalize(product.s)), version, buildNumber, rules)))
  }

  /** A request builder for one suffix. */
  type Creator = string -> Result<Call>

  /** `CreateRequest` with everything but the suffix fixed. */
  function CreatorFor(payload: Dict, config: Dict, auth: Auth, partials: Partials): Creator {
    (suffix: string) => CreateRequest(payload, config, auth, partials, suffix)
  }

  /** The creation requests, one per suffix, in suffix order. */
  function Creations(suffixes: seq<string>, create: Creator): (steps: seq<Result<Call>>)
    ensures |steps| == |suffixes|
    ensures forall i :: 0 <= i < |suffixes| ==> steps[i] == create(suffixes[i])
  {
    seq(|suffixes|, i requires 0 <= i < |suffixes| => create(suffixes[i]))
  }

  /** The creation requests, cut at suffix `i`. */
  lemma CreationsSplit(suffixes: seq<string>, create: Creator, i: nat)
    requires i < |suffixes|
    ensures Creations(suffixes, create)
         == Creations(suffixes[..i], create) + [create(suffixes[i])] + Creations(suffixes[i + 1..], create)
  {
    var lhs := Creations(suffixes, create);
    var rhs := Creations(suffixes[..i], create) + [create(suffixes[i])] + Creations(suffixes[i + 1..], create);
    assert |lhs| == |rhs|;
    forall k | 0 <= k < |lhs|
      ensures lhs[k] == rhs[k]
    {
      if k < i {
        assert rhs[k] == create(suffixes[..i][k]);
      } else if k > i {
        assert rhs[k] == create(suffixes[i + 1..][k - i - 1]);
      }
    }
  }

  /** The creation requests for one more suffix. */
  lemma CreationsGrow(suffixes: seq<string>, create: Creator, i: nat)
    requires i < |suffixes|
    ensures Creations(suffixes[..i + 1], create) == Creations(suffixes[..i], create) + [create(suffixes[i])]
  {
    var lhs := Creations(suffixes[..i + 1], create);
    var rhs := Creations(suffixes[..i], create) + [create(suffixes[i])];
    assert |lhs| == |rhs|;
    forall k | 0 <= k < |lhs|
      ensures lhs[k] == rhs[k]
    {
      if k < i {
        assert lhs[k] == create(suffixes[k]) == rhs[k];
      }
    }
  }

  /** Every creation request, then the push request. */
  function TopLevelSteps(suffixes: seq<string>, create: Creator, push: Result<Call>): (steps: seq<Result<Call>>)
    ensures |steps| == |suffixes| + 1 && steps[|suffixes|] == push
    ensures forall i :: 0 <= i < |suffixes| ==> steps[i] == create(suffixes[i])
  {
    Creations(suffixes, create) + [push]
  }

  /** What `submit_toplevel` does: the calls it makes and how it ends. */
  function TopLevelRun(payload: Dict, config: Dict, auth: Auth, order: seq<string>, accepts: Call -> bool): (r: Run)
    requires KeyOrderFor(payload, order)
    ensures PartialVersionsOf(payload).Err? ==> r == Run([], Aborted(PartialVersionsOf(payload).error))
    ensures UpdateLineSuffixes(payload, order).Err? ==> r.trace == [] && r.outcome.Aborted?
  {
    match PartialVersionsOf(payload)
    case Err(e) => Run([], Aborted(e))
    case Ok(partials) =>
      match UpdateLineSuffixes(payload, order)
      case Err(e) => Run([], Aborted(e))
      case Ok(suffixes) =>
        FailFast(TopLevelSteps(suffixes, CreatorFor(payload, config, auth, partials), PushRequest(payload, config, auth)),
                 accepts)
  }

  /**
   * One creation of the loop: with every earlier creation sent and accepted,
   * the creation for suffix `i` either ends the flow or extends the prefix.
   */
  lemma CreationStep(suffixes: seq<string>, create: Creator, push: Result<Call>, accepts: Call -> bool,
                     i: nat, trace: seq<Call>)
    requires i < |suffixes| && FailFast(Creations(suffixes[..i], create), accepts) == Run(trace, Completed)
    ensures var s := create(suffixes[i]);
      && (s.Err? ==> FailFast(TopLevelSteps(suffixes, create, push), accepts) == Run(trace, Aborted(s.error)))
      && (s.Ok? && !accepts(s.value) ==>
            FailFast(TopLevelSteps(suffixes, create, push), accepts) == Run(trace + [s.value], Aborted(RegistryError)))
      && (s.Ok? && accepts(s.value) ==>
            FailFast(Creations(suffixes[..i + 1], create), accepts) == Run(trace + [s.value], Completed))
  {
    var p := Creations(suffixes[..i], create);
    var s := create(suffixes[i]);
    var q := Creations(suffixes[i + 1..], create) + [push];
    CreationsSplit(suffixes, create, i);
    assert TopLevelSteps(suffixes, create, push) == p + [s] + q;
    CreationsGrow(suffixes, create, i);
    FailFastStep(p, s, q, accepts, trace);
  }

  /** The push, once every creation was sent and accepted. */
  lemma PushStep(suffixes: seq<string>, create: Creator, push: Result<Call>, accepts: Call -> bool, trace: seq<Call>)
    requires FailFast(Creations(suffixes, create), accepts) == Run(trace, Completed)
    ensures push.Err? ==> FailFast(TopLevelSteps(suffixes, create, push), accepts) == Run(trace, Aborted(push.error))
    ensures push.Ok? ==> FailFast(TopLevelSteps(suffixes, create, push), accepts)
                         == Run(trace + [push.value], if accepts(push.value) then Completed else Aborted(RegistryError))
  {
    var p := Creations(suffixes, create);
    FailFastStep(p, push, [], accepts, trace);
    assert TopLevelSteps(suffixes, create, push) == p + [push] + [];
  }

  /**
   * `submit_toplevel`: parse the partial versions, send one creation per
   * suffix, then the push; the first exception ends the flow.
   */
  method SubmitTopLevel(payload: Dict, config: Dict, auth: Auth, order: seq<string>, accepts: Call -> bool)
    returns (r: Run)
    requires KeyOrderFor(payload, order)
    ensures r == TopLevelRun(payload, config, auth, order, accepts)
  {
    var parsed := ParsePartialVersions(payload);
    if parsed.Err? {
      return Run([], Aborted(parsed.error));
    }
    var partials := parsed.value;
    var suffixes := UpdateLineSuffixes(payload, order);
    if suffixes.Err? {
      return Run([], Aborted(suffixes.error));
    }
    var sfx := suffixes.value;
    var create := CreatorFor(payload, config, auth, partials);
    var push := PushRequest(payload, config, auth);
    var trace: seq<Call> := [];
    assert sfx[..0] == [];
    for i := 0 to |sfx|
      invariant FailFast(Creations(sfx[..i], create), accepts) == Run(trace, Completed)
    {
      var request := create(sfx[i]);
      CreationStep(sfx, create, push, accepts, i, trace);
      if request.Err? {
        return Run(trace, Aborted(request.error));
      }
      trace := trace + [request.value];
      if !accepts(request.value) {
        return Run(trace, Aborted(RegistryError));
      }
    }
    assert sfx[..|sfx|] == sfx;
    PushStep(sfx, create, push, accepts, trace);
    if push.Err? {
      return Run(trace, Aborted(push.error));
    }
    trace := trace + [push.value];
    if !accepts(push.value) {
      return Run(trace, Aborted(RegistryError));
    }
    return Run(trace, Completed);
  }

  /**
   * The calls of a top-level run, for any creation builder and push request:
   * creations in suffix order, then the push; every call but the last was
   * accepted; the run completes exactly when the push was made and accepted.
   */
  lemma TopLevelStepsSpec(suffixes: seq<string>, create: Creator, push: Result<Call>, accepts: Call -> bool)
    ensures var r := FailFast(TopLevelSteps(suffixes, create, push), accepts);
      && |r.trace| <= |suffixes| + 1
      && (forall i :: 0 <= i < |r.trace| && i < |suffixes| ==> create(suffixes[i]) == Ok(r.trace[i]))
      && (|r.trace| == |suffixes| + 1 ==> push == Ok(r.trace[|suffixes|]))
      && (forall i :: 0 <= i < |r.trace| - 1 ==> accepts(r.trace[i]))
      && (r.outcome == Completed <==> |r.trace| == |suffixes| + 1 && accepts(r.trace[|suffixes|]))
  {
    var steps := TopLevelSteps(suffixes, create, push);
    var r := FailFast(steps, accepts);
    FailFastSpec(steps, accepts);
    FailFastAcceptedBeforeLast(steps, accepts);
    forall i | 0 <= i < |r.trace| && i < |suffixes|
      ensures create(suffixes[i]) == Ok(r.trace[i])
    {
      assert steps[i] == Creations(suffixes, create)[i];
    }
    if |r.trace| == |suffixes| + 1 {
      assert steps[|suffixes|] == push;
    }
    if r.outcome == Completed {
      assert AllAcceptedBefore(steps, accepts, |steps|);
      assert steps[|suffixes|] == Ok(r.trace[|suffixes|]);
    } else if |r.trace| == |suffixes| + 1 {
      assert !accepts(r.trace[|suffixes|]);
    }
  }

  /**
   * What `submit_toplevel` sends, once the partial versions and the suffixes
   * are known: the creation request of each suffix in order, then the push
   * request; the push is made only after every creation was accepted, and the
   * run completes exactly when the push was made and accepted.
   */
  lemma TopLevelCalls(payload: Dict, config: Dict, auth: Auth, order: seq<string>, accepts: Call -> bool,
                      partials: Partials, suffixes: seq<string>)
    requires KeyOrderFor(payload, order)
    requires PartialVersionsOf(payload) == Ok(partials) && UpdateLineSuffixes(payload, order) == Ok(suffixes)
    ensures var r := TopLevelRun(payload, config, auth, order, accepts);
      && |r.trace| <= |suffixes| + 1
      && (forall i :: 0 <= i < |r.trace| && i < |suffixes| ==>
            CreateRequest(payload, config, auth, partials, suffixes[i]) == Ok(r.trace[i]))
      && (|r.trace| == |suffixes| + 1 ==> PushRequest(payload, config, auth) == Ok(r.trace[|suffixes|]))
      && (forall i :: 0 <= i < |r.trace| - 1 ==> accepts(r.trace[i]))
      && (r.outcome == Completed <==> |r.trace| == |suffixes| + 1 && accepts(r.trace[|suffixes|]))
  {
    var create := CreatorFor(payload, config, auth, partials);
    TopLevelStepsSpec(suffixes, create, PushRequest(payload, config, auth), accepts);
  }

  /**
   * The push is the last call and the only one: a call is a push exactly when
   * it comes after one creation per suffix.
   */
  lemma PushOnlyLast(payload: Dict, config: Dict, auth: Auth, order: seq<string>, accepts: Call -> bool,
                     partials: Partials, suffixes: seq<string>)
    requires KeyOrderFor(payload, order)
    requires PartialVersionsOf(payload) == Ok(partials) && UpdateLineSuffixes(payload, order) == Ok(suffixes)
    ensures var r := TopLevelRun(payload, config, auth, order, accepts);
      forall i :: 0 <= i < |r.trace| ==>
        (r.trace[i].PushRelease? <==> i == |suffixes|) && (r.trace[i].CreateRelease? <==> i < |suffixes|)
  {
    TopLevelCalls(payload, config, auth, order, accepts, partials, suffixes);
    var r := TopLevelRun(payload, config, auth, order, accepts);
    forall i | 0 <= i < |r.trace|
      ensures (r.trace[i].PushRelease? <==> i == |suffixes|) && (r.trace[i].CreateRelease? <==> i < |suffixes|)
    {
      if i < |suffixes| {
        assert CreateRequest(payload, config, auth, partials, suffixes[i]) == Ok(r.trace[i]);
      } else {
        assert PushRequest(payload, config, auth) == Ok(r.trace[i]);
      }
    }
  }

  /** A creation that cannot be built or is rejected means no push and no completed run. */
  lemma FailedCreationMeansNoPush(payload: Dict, config: Dict, auth: Auth, order: seq<string>, accepts: Call -> bool,
                                  partials: Partials, suffixes: seq<string>, i: nat)
    requires KeyOrderFor(payload, order)
    requires PartialVersionsOf(payload) == Ok(partials) && UpdateLineSuffixes(payload, order) == Ok(suffixes)
    requires i < |suffixes|
    requires var c := CreateRequest(payload, config, auth, partials, suffixes[i]); c.Err? || !accepts(c.value)
    ensures var r := TopLevelRun(payload, config, auth, order, accepts);
      && r.outcome != Completed
      && forall k :: 0 <= k < |r.trace| ==> !r.trace[k].PushRelease?
  {
    TopLevelCalls(payload, config, auth, order, accepts, partials, suffixes);
  }

  /**
   * The converse: when every creation is built and accepted and the push can
   * be built, the push is made, as call number `|suffixes|`, and the run
   * completes exactly when the registry accepts it.
   */
  lemma CreationsAcceptedMeansPush(payload: Dict, config: Dict, auth: Auth, order: seq<string>, accepts: Call -> bool,
                                   partials: Partials, suffixes: seq<string>)
    requires KeyOrderFor(payload, order)
    requires PartialVersionsOf(payload) == Ok(partials) && UpdateLineSuffixes(payload, order) == Ok(suffixes)
    requires forall i :: 0 <= i < |suffixes| ==>
      var c := CreateRequest(payload, config, auth, partials, suffixes[i]); c.Ok? && accepts(c.value)
    requires PushRequest(payload, config, auth).Ok?
    ensures var r := TopLevelRun(payload, config, auth, order, accepts);
      && |r.trace| == |suffixes| + 1
      && r.trace[|suffixes|] == PushRequest(payload, config, auth).value
      && (r.outcome == Completed <==> accepts(PushRequest(payload, config, auth).value))
  {
    var create := CreatorFor(payload, config, auth, partials);
    var push := PushRequest(payload, config, auth);
    forall i | 0 <= i < |suffixes|
      ensures create(suffixes[i]).Ok? && accepts(create(suffixes[i]).value)
    {
      assert create(suffixes[i]) == CreateRequest(payload, config, auth, partials, suffixes[i]);
    }
    StepsPushMade(suffixes, create, push, accepts);
    assert TopLevelRun(payload, config, auth, order, accepts) == FailFast(TopLevelSteps(suffixes, create, push), accepts);
  }

  /** The same, for any creator. */
  lemma StepsPushMade(suffixes: seq<string>, create: Creator, push: Result<Call>, accepts: Call -> bool)
    requires forall i :: 0 <= i < |suffixes| ==> create(suffixes[i]).Ok? && accepts(create(suffixes[i]).value)
    requires push.Ok?
    ensures var r := FailFast(TopLevelSteps(suffixes, create, push), accepts);
      && |r.trace| == |suffixes| + 1
      && r.trace[|suffixes|] == push.value
      && (r.outcome == Completed <==> accepts(push.value))
  {
    var steps := TopLevelSteps(suffixes, create, push);
    var r := FailFast(steps, accepts);
    FailFastSpec(steps, accepts);
    assert forall i :: 0 <= i < |steps| ==> steps[i].Ok?;
    assert AllAcceptedBefore(steps, accepts, |suffixes|);
    if r.outcome != Completed {
      var n := |r.trace|;
      if r.outcome.error == RegistryError && r.trace != [] && !accepts(r.trace[n - 1]) {
        assert steps[n - 1] == Ok(r.trace[n - 1]);
        assert n - 1 == |suffixes|;
      }
    }
  }

  /**
   * A completed top-level submission made one creation per key of
   * `update_line` (one alone when it has none) and one push.
   */
  lemma TopLevelCompletedCount(payload: Dict, config: Dict, auth: Auth, order: seq<string>, accepts: Call -> bool)
    requires KeyOrderFor(payload, order)
    requires TopLevelRun(payload, config, auth, order, accepts).outcome == Completed
    ensures UpdateLine(payload).JObj?
    ensures |TopLevelRun(payload, config, auth, order, accepts).trace| ==
      (if UpdateLine(payload).fields == map[] then 1 else |UpdateLine(payload).fields|) + 1
  {
    var partials := PartialVersionsOf(payload).value;
    var suffixes := UpdateLineSuffixes(payload, order).value;
    TopLevelCalls(payload, config, auth, order, accepts, partials, suffixes);
    UpdateLineSuffixCount(payload, order);
  }

  /**
   * Every call of a top-level submission is a creation or the push, sent
   * with the configuration's `api_root` and `dummy` and the given credentials.
   */
  lemma TopLevelRunCalls(payload: Dict, config: Dict, auth: Auth, order: seq<string>, accepts: Call -> bool)
    requires KeyOrderFor(payload, order)
    ensures var r := TopLevelRun(payload, config, auth, order, accepts);
      forall k :: 0 <= k < |r.trace| ==>
        && (r.trace[k].CreateRelease? || r.trace[k].PushRelease?)
        && "api_root" in config && "dummy" in config
        && r.trace[k].client == Client(config["api_root"], auth, config["dummy"])
  {
    var parsed := PartialVersionsOf(payload);
    var suffixes := UpdateLineSuffixes(payload, order);
    if parsed.Ok? && suffixes.Ok? {
      var P := SentByTopLevel(config, auth);
      var steps := TopLevelSteps(suffixes.value, CreatorFor(payload, config, auth, parsed.value), PushRequest(payload, config, auth));
      TopLevelRequestsSent(payload, config, auth, parsed.value, suffixes.value);
      assert TopLevelRun(payload, config, auth, order, accepts) == FailFast(steps, accepts);
      FailFastTraceFrom(steps, accepts, P);
      assert forall k :: 0 <= k < |FailFast(steps, accepts).trace| ==> P(FailFast(steps, accepts).trace[k]);
    }
  }

  /** A creation or the push, sent with the configuration's `api_root` and `dummy` and the given credentials. */
  function SentByTopLevel(config: Dict, auth: Auth): Call -> bool {
    (c: Call) =>
      && (c.CreateRelease? || c.PushRelease?)
      && "api_root" in config && "dummy" in config
      && c.client == Client(config["api_root"], auth, config["dummy"])
  }

  /** Every creation and the push of a top-level submission is sent that way. */
  lemma TopLevelRequestsSent(payload: Dict, config: Dict, auth: Auth, partials: Partials, suffixes: seq<string>)
    ensures AllBuiltSatisfy(TopLevelSteps(suffixes, CreatorFor(payload, config, auth, partials), PushRequest(payload, config, auth)),
                            SentByTopLevel(config, auth))
  {
    var create := CreatorFor(payload, config, auth, partials);
    var P := SentByTopLevel(config, auth);
    forall s | create(s).Ok?
      ensures P(create(s).value)
    {
      assert create(s) == CreateRequest(payload, config, auth, partials, s);
    }
    TopLevelStepsAll(suffixes, create, PushRequest(payload, config, auth), P);
  }

  /** A property of every creation and of the push holds of every request of the run. */
  lemma TopLevelStepsAll(suffixes: seq<string>, create: Creator, push: Result<Call>, P: Call -> bool)
    requires forall s :: create(s).Ok? ==> P(create(s).value)
    requires push.Ok? ==> P(push.value)
    ensures AllBuiltSatisfy(TopLevelSteps(suffixes, create, push), P)
  {
    var steps := TopLevelSteps(suffixes, create, push);
    forall k | 0 <= k < |steps| && steps[k].Ok?
      ensures P(steps[k].value)
    {
      if k < |suffixes| {
        assert steps[k] == create(suffixes[k]);
      } else {
        assert steps[k] == push;
      }
    }
  }
}
