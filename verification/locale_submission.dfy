/**
 * Locale submission: `create_locale_submitter` turns one manifest entry and
 * one extra suffix into a release-style or nightly-style request, and
 * `submit_locale` sends one such request per manifest entry and suffix, in
 * manifest order and then suffix order, stopping at the first failure.
 */
module LocaleSubmission {
  import opened JsonValues
  import opened Registry

  /** The fields of a release-style request, besides the optional `partialInfo`. */
  const ReleaseFields: set<string> :=
    {"platform", "productName", "appVersion", "version", "build_number", "locale",
     "hashFunction", "extVersion", "buildID", "completeInfo"}

  /** The fields of a nightly-style request, besides the optional `partialInfo`. */
  const NightlyFields: set<string> :=
    {"platform", "buildID", "productName", "branch", "appVersion", "locale",
     "hashFunction", "extVersion", "completeInfo"}

  /** `{"partialInfo"}` when the entry carries one, `{}` otherwise. */
  function PartialInfoField(e: Dict): set<string> {
    if "partialInfo" in e then {"partialInfo"} else {}
  }

  /** `data`, with `partialInfo` copied over from the entry when the entry has it. */
  function WithPartialInfo(data: Dict, e: Dict): (r: Dict)
    requires "partialInfo" !in data
    ensures r.Keys == data.Keys + PartialInfoField(e)
    ensures "partialInfo" in r ==> r["partialInfo"] == e["partialInfo"]
    ensures forall k :: k in data ==> r[k] == data[k]
  {
    if "partialInfo" in e then data["partialInfo" := e["partialInfo"]] else data
  }

  /** `e.get('blob_suffix', '') + extra_suffix`; adding anything but two strings raises. */
  function ReleaseSuffix(e: Dict, extraSuffix: Json): (r: Result<Json>)
    ensures r.Ok? <==> BlobSuffix(e).JStr? && extraSuffix.JStr?
    ensures r.Ok? ==> r.value == JStr(BlobSuffix(e).s + extraSuffix.s)
  {
    var blob := BlobSuffix(e);
    if blob.JStr? && extraSuffix.JStr? then Ok(JStr(blob.s + extraSuffix.s))
    else Err(WrongType("blob_suffix"))
  }

  /** The entry keys a release-style request reads. */
  predicate HasReleaseKeys(e: Dict) {
    && "platform" in e && "appName" in e && "appVersion" in e && "version" in e && "build_number" in e
    && "locale" in e && "hashType" in e && "extVersion" in e && "buildid" in e && "completeInfo" in e
  }

  /** The entry keys a nightly-style request reads. */
  predicate HasNightlyKeys(e: Dict) {
    && "platform" in e && "buildid" in e && "appName" in e && "branch" in e && "appVersion" in e
    && "locale" in e && "hashType" in e && "extVersion" in e && "completeInfo" in e
  }

  /** The data dict of a release-style request; the first missing entry key raises. */
  function ReleaseData(e: Dict): (r: Result<Dict>)
    ensures r.Ok? <==> HasReleaseKeys(e)
    ensures r.Ok? ==>
      var data := r.value;
      && data.Keys == ReleaseFields
      && data["productName"] == e["appName"] && data["hashFunction"] == e["hashType"]
      && data["buildID"] == e["buildid"] && data["version"] == e["version"]
      && data["build_number"] == e["build_number"] && data["platform"] == e["platform"]
      && data["appVersion"] == e["appVersion"] && data["locale"] == e["locale"]
      && data["extVersion"] == e["extVersion"] && data["completeInfo"] == e["completeInfo"]
    ensures r.Err? ==> r.error.KeyError?
  {
    var platform :- Lookup(e, "platform");
    var productName :- Lookup(e, "appName");
    var appVersion :- Lookup(e, "appVersion");
    var version :- Lookup(e, "version");
    var buildNumber :- Lookup(e, "build_number");
    var locale :- Lookup(e, "locale");
    var hashFunction :- Lookup(e, "hashType");
    var extVersion :- Lookup(e, "extVersion");
    var buildID :- Lookup(e, "buildid");
    var completeInfo :- Lookup(e, "completeInfo");
    Ok(map[
      "platform" := platform, "productName" := productName, "appVersion" := appVersion,
      "version" := version, "build_number" := buildNumber, "locale" := locale,
      "hashFunction" := hashFunction, "extVersion" := extVersion, "buildID" := buildID,
      "completeInfo" := completeInfo])
  }

  /** The data dict of a nightly-style request; the first missing entry key raises. */
  function NightlyData(e: Dict): (r: Result<Dict>)
    ensures r.Ok? <==> HasNightlyKeys(e)
    ensures r.Ok? ==>
      var data := r.value;
      && data.Keys == NightlyFields
      && data["branch"] == e["branch"]
      && data["productName"] == e["appName"] && data["hashFunction"] == e["hashType"]
      && data["buildID"] == e["buildid"] && data["platform"] == e["platform"]
      && data["appVersion"] == e["appVersion"] && data["locale"] == e["locale"]
      && data["extVersion"] == e["extVersion"] && data["completeInfo"] == e["completeInfo"]
    ensures r.Err? ==> r.error.KeyError?
  {
    var platform :- Lookup(e, "platform");
    var buildID :- Lookup(e, "buildid");
    var productName :- Lookup(e, "appName");
    var branch :- Lookup(e, "branch");
    var appVersion :- Lookup(e, "appVersion");
    var locale :- Lookup(e, "locale");
    var hashFunction :- Lookup(e, "hashType");
    var extVersion :- Lookup(e, "extVersion");
    var completeInfo :- Lookup(e, "completeInfo");
    Ok(map[
      "platform" := platform, "buildID" := buildID, "productName" := productName,
      "branch" := branch, "appVersion" := appVersion, "locale" := locale,
      "hashFunction" := hashFunction, "extVersion" := extVersion, "completeInfo" := completeInfo])
  }

  /**
   * `data` is what a release-style request sends for entry `e`: the release
   * fields, copied from the entry under their registry names, and the
   * entry's `partialInfo` when it has one.
   */
  predicate ReleaseDataOf(data: Dict, e: Dict) {
    && HasReleaseKeys(e)
    && data.Keys == ReleaseFields + PartialInfoField(e)
    && data["productName"] == e["appName"] && data["hashFunction"] == e["hashType"]
    && data["buildID"] == e["buildid"] && data["version"] == e["version"]
    && data["build_number"] == e["build_number"] && data["platform"] == e["platform"]
    && data["appVersion"] == e["appVersion"] && data["locale"] == e["locale"]
    && data["extVersion"] == e["extVersion"] && data["completeInfo"] == e["completeInfo"]
    && ("partialInfo" in e ==> data["partialInfo"] == e["partialInfo"])
  }

  /** The release-style branch of `create_locale_submitter`: a `ReleaseSubmitterV9` request. */
  function ReleaseRequest(e: Dict, extraSuffix: Json, auth: Auth, config: Dict): (r: Result<Call>)
    ensures r.Ok? <==> "api_root" in config && "dummy" in config && ReleaseSuffix(e, extraSuffix).Ok? && HasReleaseKeys(e)
    ensures r.Ok? ==>
      && r.value.SubmitRelease?
      && r.value.client == Client(config["api_root"], auth, config["dummy"])
      && r.value.suffix == ReleaseSuffix(e, extraSuffix).value
    ensures r.Ok? ==> r.value.data.Keys == ReleaseFields + PartialInfoField(e)
    ensures r.Err? ==> r.error != UnknownStyle
  {
    var apiRoot :- Lookup(config, "api_root");
    var dummy :- Lookup(config, "dummy");
    var suffix :- ReleaseSuffix(e, extraSuffix);
    var data :- ReleaseData(e);
    Ok(SubmitRelease(Client(apiRoot, auth, dummy), suffix, WithPartialInfo(data, e)))
  }

  /** A release-style request sends the entry's release fields and nothing of the nightly style. */
  lemma ReleaseRequestData(e: Dict, extraSuffix: Json, auth: Auth, config: Dict)
    ensures var r := ReleaseRequest(e, extraSuffix, auth, config);
      r.Ok? ==> ReleaseDataOf(r.value.data, e) && "branch" !in r.value.data
  {
    var r := ReleaseRequest(e, extraSuffix, auth, config);
    if r.Ok? {
      var data := ReleaseData(e).value;
      assert r.value.data == WithPartialInfo(data, e);
    }
  }

  /**
   * `data` is what a nightly-style request sends for entry `e`: the nightly
   * fields, copied from the entry under their registry names, and the
   * entry's `partialInfo` when it has one.
   */
  predicate NightlyDataOf(data: Dict, e: Dict) {
    && HasNightlyKeys(e)
    && data.Keys == NightlyFields + PartialInfoField(e)
    && data["branch"] == e["branch"]
    && data["productName"] == e["appName"] && data["hashFunction"] == e["hashType"]
    && data["buildID"] == e["buildid"] && data["platform"] == e["platform"]
    && data["appVersion"] == e["appVersion"] && data["locale"] == e["locale"]
    && data["extVersion"] == e["extVersion"] && data["completeInfo"] == e["completeInfo"]
    && ("partialInfo" in e ==> data["partialInfo"] == e["partialInfo"])
  }

  /**
   * The nightly-style branch of `create_locale_submitter`: a
   * `NightlySubmitterV4` request. It has no suffix: the extra suffix of the
   * fan-out is not used by this branch.
   */
  function NightlyRequest(e: Dict, auth: Auth, config: Dict): (r: Result<Call>)
    ensures r.Ok? <==> "api_root" in config && "dummy" in config && HasNightlyKeys(e)
    ensures r.Ok? ==>
      && r.value.SubmitNightly?
      && r.value.client == Client(config["api_root"], auth, config["dummy"])
      && r.value.urlReplacements == GetOr(e, "url_replacements", JArr([]))
    ensures r.Ok? ==> r.value.data.Keys == NightlyFields + PartialInfoField(e)
    ensures r.Err? ==> r.error != UnknownStyle
  {
    var apiRoot :- Lookup(config, "api_root");
    var dummy :- Lookup(config, "dummy");
    var urlReplacements := GetOr(e, "url_replacements", JArr([]));
    var data :- NightlyData(e);
    Ok(SubmitNightly(Client(apiRoot, auth, dummy), urlReplacements, WithPartialInfo(data, e)))
  }

  /** A nightly-style request sends the entry's nightly fields and no version or build number. */
  lemma NightlyRequestData(e: Dict, auth: Auth, config: Dict)
    ensures var r := NightlyRequest(e, auth, config);
      r.Ok? ==> NightlyDataOf(r.value.data, e) && "version" !in r.value.data && "build_number" !in r.value.data
  {
    var r := NightlyRequest(e, auth, config);
    if r.Ok? {
      var data := NightlyData(e).value;
      assert r.value.data == WithPartialInfo(data, e);
    }
  }

  /**
   * `create_locale_submitter(e, extra_suffix, auth, config)`: the request for
   * one manifest entry, or the exception raised while building it. The
   * release marker is checked first.
   */
  function LocaleRequest(e: Dict, extraSuffix: Json, auth: Auth, config: Dict): (r: Result<Call>)
    ensures r == Err(UnknownStyle) <==> "tc_release" !in e && "tc_nightly" !in e
    ensures r.Ok? ==> (r.value.SubmitRelease? <==> "tc_release" in e)
    ensures r.Ok? ==> (r.value.SubmitNightly? <==> "tc_release" !in e)
    ensures r.Ok? ==> "api_root" in config && "dummy" in config
                      && r.value.client == Client(config["api_root"], auth, config["dummy"])
    ensures r.Ok? && (r.value.SubmitRelease? || r.value.SubmitNightly?) ==>
      ("partialInfo" in r.value.data <==> "partialInfo" in e)
  {
    if "tc_release" in e then ReleaseRequest(e, extraSuffix, auth, config)
    else if "tc_nightly" in e then NightlyRequest(e, auth, config)
    else Err(UnknownStyle)
  }

  /** An entry with both markers is submitted release-style. */
  lemma ReleaseMarkerWins(e: Dict, extraSuffix: Json, auth: Auth, config: Dict)
    requires "tc_release" in e && "tc_nightly" in e
    ensures LocaleRequest(e, extraSuffix, auth, config) == ReleaseRequest(e, extraSuffix, auth, config)
  {
  }

  /**
   * A nightly-style request does not depend on the extra suffix, so each
   * suffix of the fan-out sends the same request for a nightly entry.
   */
  lemma NightlyIgnoresSuffix(e: Dict, s1: Json, s2: Json, auth: Auth, config: Dict)
    requires "tc_release" !in e && "tc_nightly" in e
    ensures LocaleRequest(e, s1, auth, config) == LocaleRequest(e, s2, auth, config)
  {
  }

  /**
   * The suffixes of `submit_locale`: `task['payload'].get('suffixes', [''])`,
   * iterated. A string iterates over its characters; iterating anything else
   * but a list raises.
   */
  function Suffixes(payload: Dict): (r: Result<seq<Json>>)
    ensures "suffixes" !in payload ==> r == Ok([JStr("")])
    ensures "suffixes" in payload && payload["suffixes"].JArr? ==> r == Ok(payload["suffixes"].items)
    ensures "suffixes" in payload && payload["suffixes"].JStr? ==>
      var chars := payload["suffixes"].s;
      && r.Ok? && |r.value| == |chars|
      && forall i :: 0 <= i < |chars| ==> r.value[i] == JStr([chars[i]])
    ensures r.Err? <==> "suffixes" in payload && !payload["suffixes"].JArr? && !payload["suffixes"].JStr?
    ensures r.Err? ==> r.error == WrongType("suffixes")
  {
    match GetOr(payload, "suffixes", JArr([JStr("")]))
    case JArr(items) => Ok(items)
    case JStr(s) => Ok(seq(|s|, i requires 0 <= i < |s| => JStr([s[i]])))
    case _ => Err(WrongType("suffixes"))
  }

  /** A request builder for one manifest entry and one extra suffix. */
  type Builder = (Dict, Json) -> Result<Call>

  /** `create_locale_submitter` with the server's credentials and configuration fixed. */
  function LocaleBuilder(auth: Auth, config: Dict): Builder {
    (e: Dict, suffix: Json) => LocaleRequest(e, suffix, auth, config)
  }

  /** The requests for one manifest entry, one per suffix, in suffix order. */
  function Row(e: Dict, suffixes: seq<Json>, build: Builder): (row: seq<Result<Call>>)
    ensures |row| == |suffixes|
    ensures forall j :: 0 <= j < |suffixes| ==> row[j] == build(e, suffixes[j])
  {
    seq(|suffixes|, j requires 0 <= j < |suffixes| => build(e, suffixes[j]))
  }

  /** The requests for a whole manifest: the rows of its entries, in manifest order, one per entry and suffix. */
  function LocaleSteps(manifest: seq<Dict>, suffixes: seq<Json>, build: Builder): (steps: seq<Result<Call>>)
    ensures manifest == [] || suffixes == [] ==> steps == []
    decreases |manifest|
  {
    if manifest == [] then []
    else
      var n := |manifest| - 1;
      LocaleSteps(manifest[..n], suffixes, build) + Row(manifest[n], suffixes, build)
  }

  /** One request per entry and suffix. */
  lemma {:induction false} LocaleStepsLength(manifest: seq<Dict>, suffixes: seq<Json>, build: Builder)
    ensures |LocaleSteps(manifest, suffixes, build)| == |manifest| * |suffixes|
    decreases |manifest|
  {
    if manifest != [] {
      var n := |manifest| - 1;
      LocaleStepsLength(manifest[..n], suffixes, build);
      assert (n + 1) * |suffixes| == n * |suffixes| + |suffixes|;
    }
  }

  /** What `submit_locale` does: the calls it makes and how it ends. */
  function LocaleRun(payload: Dict, manifest: seq<Dict>, config: Dict, auth: Auth, accepts: Call -> bool): (r: Run)
    ensures Suffixes(payload).Err? ==> r.trace == [] && (r.outcome == Completed <==> manifest == [])
    ensures Suffixes(payload).Ok? && (manifest == [] || Suffixes(payload).value == []) ==> r == Run([], Completed)
  {
    match Suffixes(payload)
    case Err(e) => if manifest == [] then Run([], Completed) else Run([], Aborted(e))
    case Ok(suffixes) => FailFast(LocaleSteps(manifest, suffixes, LocaleBuilder(auth, config)), accepts)
  }

  lemma {:induction false} LocaleStepsAppend(a: seq<Dict>, b: seq<Dict>, suffixes: seq<Json>, build: Builder)
    ensures LocaleSteps(a + b, suffixes, build) == LocaleSteps(a, suffixes, build) + LocaleSteps(b, suffixes, build)
    decreases |b|
  {
    if b == [] {
      assert a + b == a;
    } else {
      var n := |b| - 1;
      assert (a + b)[..|a + b| - 1] == a + b[..n];
      assert (a + b)[|a + b| - 1] == b[n];
      var row := Row(b[n], suffixes, build);
      assert LocaleSteps(a + b, suffixes, build) == LocaleSteps(a + b[..n], suffixes, build) + row;
      assert LocaleSteps(b, suffixes, build) == LocaleSteps(b[..n], suffixes, build) + row;
      LocaleStepsAppend(a, b[..n], suffixes, build);
    }
  }

  /** The request at position `i * |suffixes| + j` is the one for entry `i` and suffix `j`. */
  lemma {:induction false} LocaleStepsAt(manifest: seq<Dict>, suffixes: seq<Json>, build: Builder, i: nat, j: nat)
    requires i < |manifest| && j < |suffixes|
    ensures i * |suffixes| + j < |LocaleSteps(manifest, suffixes, build)|
    ensures LocaleSteps(manifest, suffixes, build)[i * |suffixes| + j] == build(manifest[i], suffixes[j])
    decreases |manifest|
  {
    var n := |manifest| - 1;
    var k := |suffixes|;
    var prefix := LocaleSteps(manifest[..n], suffixes, build);
    LocaleStepsLength(manifest[..n], suffixes, build);
    if i == n {
      assert i * k + j == |prefix| + j;
    } else {
      LocaleStepsAt(manifest[..n], suffixes, build, i, j);
      MulMonotone(i + 1, n, k);
      assert (i + 1) * k == i * k + k;
    }
  }

  lemma MulMonotone(a: nat, b: nat, k: nat)
    requires a <= b
    ensures a * k <= b * k
  {
  }

  /** The requests of the manifest, cut just before the one for entry `i` and suffix `j`. */
  lemma LocaleStepsSplit(manifest: seq<Dict>, suffixes: seq<Json>, build: Builder, i: nat, j: nat)
    requires i < |manifest| && j < |suffixes|
    ensures LocaleSteps(manifest, suffixes, build)
         == (LocaleSteps(manifest[..i], suffixes, build) + Row(manifest[i], suffixes[..j], build))
            + [build(manifest[i], suffixes[j])]
            + (Row(manifest[i], suffixes[j + 1..], build) + LocaleSteps(manifest[i + 1..], suffixes, build))
  {
    var e := manifest[i];
    assert manifest == manifest[..i + 1] + manifest[i + 1..];
    LocaleStepsAppend(manifest[..i + 1], manifest[i + 1..], suffixes, build);
    LocaleStepsGrow(manifest, suffixes, build, i);
    RowSplit(e, suffixes, build, j);
    Regroup(LocaleSteps(manifest[..i], suffixes, build), Row(e, suffixes[..j], build), build(e, suffixes[j]),
            Row(e, suffixes[j + 1..], build), LocaleSteps(manifest[i + 1..], suffixes, build));
  }

  lemma Regroup<T>(p: seq<T>, a: seq<T>, x: T, b: seq<T>, q: seq<T>)
    ensures (p + (a + [x] + b)) + q == (p + a) + [x] + (b + q)
  {
  }

  /** The requests for one entry, cut at suffix `j`. */
  lemma RowSplit(e: Dict, suffixes: seq<Json>, build: Builder, j: nat)
    requires j < |suffixes|
    ensures Row(e, suffixes, build) == Row(e, suffixes[..j], build) + [build(e, suffixes[j])] + Row(e, suffixes[j + 1..], build)
  {
    var lhs := Row(e, suffixes, build);
    var rhs := Row(e, suffixes[..j], build) + [build(e, suffixes[j])] + Row(e, suffixes[j + 1..], build);
    assert |lhs| == |rhs|;
    forall k | 0 <= k < |lhs|
      ensures lhs[k] == rhs[k]
    {
      if k < j {
        assert rhs[k] == build(e, suffixes[..j][k]);
      } else if k > j {
        assert rhs[k] == build(e, suffixes[j + 1..][k - j - 1]);
      }
    }
  }

  /** The requests of one more entry. */
  lemma LocaleStepsGrow(manifest: seq<Dict>, suffixes: seq<Json>, build: Builder, i: nat)
    requires i < |manifest|
    ensures LocaleSteps(manifest[..i + 1], suffixes, build)
         == LocaleSteps(manifest[..i], suffixes, build) + Row(manifest[i], suffixes, build)
  {
    assert manifest[..i + 1][..i] == manifest[..i];
  }

  /** The requests for one entry and one more suffix. */
  lemma RowGrow(e: Dict, suffixes: seq<Json>, build: Builder, j: nat)
    requires j < |suffixes|
    ensures Row(e, suffixes[..j + 1], build) == Row(e, suffixes[..j], build) + [build(e, suffixes[j])]
  {
    var lhs := Row(e, suffixes[..j + 1], build);
    var rhs := Row(e, suffixes[..j], build) + [build(e, suffixes[j])];
    assert |lhs| == |rhs|;
    forall k | 0 <= k < |lhs|
      ensures lhs[k] == rhs[k]
    {
      if k < j {
        assert lhs[k] == build(e, suffixes[k]) == rhs[k];
      }
    }
  }

  /**
   * One iteration of the inner loop of `submit_locale`: with every earlier
   * request sent and accepted, the request for entry `i` and suffix `j`
   * either ends the whole flow or extends the completed prefix by one call.
   */
  lemma LocaleStep(manifest: seq<Dict>, sfx: seq<Json>, build: Builder, accepts: Call -> bool,
                   i: nat, j: nat, trace: seq<Call>)
    requires i < |manifest| && j < |sfx|
    requires FailFast(LocaleSteps(manifest[..i], sfx, build) + Row(manifest[i], sfx[..j], build), accepts)
             == Run(trace, Completed)
    ensures var s := build(manifest[i], sfx[j]);
      && (s.Err? ==> FailFast(LocaleSteps(manifest, sfx, build), accepts) == Run(trace, Aborted(s.error)))
      && (s.Ok? && !accepts(s.value) ==>
            FailFast(LocaleSteps(manifest, sfx, build), accepts) == Run(trace + [s.value], Aborted(RegistryError)))
      && (s.Ok? && accepts(s.value) ==>
            FailFast(LocaleSteps(manifest[..i], sfx, build) + Row(manifest[i], sfx[..j + 1], build), accepts)
            == Run(trace + [s.value], Completed))
  {
    var p := LocaleSteps(manifest[..i], sfx, build) + Row(manifest[i], sfx[..j], build);
    var s := build(manifest[i], sfx[j]);
    var q := Row(manifest[i], sfx[j + 1..], build) + LocaleSteps(manifest[i + 1..], sfx, build);
    LocaleStepsSplit(manifest, sfx, build, i, j);
    assert LocaleSteps(manifest, sfx, build) == p + [s] + q;
    RowGrow(manifest[i], sfx, build, j);
    assert LocaleSteps(manifest[..i], sfx, build) + Row(manifest[i], sfx[..j + 1], build) == p + [s];
    FailFastStep(p, s, q, accepts, trace);
  }

  /** After the inner loop, the entry's whole row has been sent. */
  lemma LocaleRowDone(manifest: seq<Dict>, sfx: seq<Json>, build: Builder, i: nat)
    requires i < |manifest|
    ensures LocaleSteps(manifest[..i], sfx, build) + Row(manifest[i], sfx[..|sfx|], build)
         == LocaleSteps(manifest[..i + 1], sfx, build)
  {
    assert sfx[..|sfx|] == sfx;
    LocaleStepsGrow(manifest, sfx, build, i);
  }

  /**
   * `submit_locale`: for every manifest entry and then every suffix, build
   * the request and send it; the first exception ends the flow.
   */
  method SubmitLocale(payload: Dict, manifest: seq<Dict>, config: Dict, auth: Auth, accepts: Call -> bool)
    returns (r: Run)
    ensures r == LocaleRun(payload, manifest, config, auth, accepts)
  {
    var build := LocaleBuilder(auth, config);
    var suffixes := Suffixes(payload);
    if manifest == [] {
      return Run([], Completed);
    }
    if suffixes.Err? {
      // iterating the suffixes raises before the first request of the first entry
      return Run([], Aborted(suffixes.error));
    }
    var sfx := suffixes.value;
    var trace: seq<Call> := [];
    for i := 0 to |manifest|
      invariant FailFast(LocaleSteps(manifest[..i], sfx, build), accepts) == Run(trace, Completed)
    {
      assert LocaleSteps(manifest[..i], sfx, build) + Row(manifest[i], sfx[..0], build)
          == LocaleSteps(manifest[..i], sfx, build);
      for j := 0 to |sfx|
        invariant FailFast(LocaleSteps(manifest[..i], sfx, build) + Row(manifest[i], sfx[..j], build), accepts)
                  == Run(trace, Completed)
      {
        var request := build(manifest[i], sfx[j]);
        LocaleStep(manifest, sfx, build, accepts, i, j, trace);
        if request.Err? {
          return Run(trace, Aborted(request.error));
        }
        trace := trace + [request.value];
        if !accepts(request.value) {
          return Run(trace, Aborted(RegistryError));
        }
      }
      LocaleRowDone(manifest, sfx, build, i);
    }
    assert manifest[..|manifest|] == manifest;
    return Run(trace, Completed);
  }

  /**
   * The calls of the fan-out, for any request builder: call `k`, the
   * position of entry `i` and suffix `j`, is that request if it was made.
   */
  lemma {:induction false} StepsOrderAt(manifest: seq<Dict>, suffixes: seq<Json>, build: Builder, accepts: Call -> bool,
                     i: nat, j: nat, k: nat)
    requires i < |manifest| && j < |suffixes| && k == i * |suffixes| + j
    ensures k < |manifest| * |suffixes|
    ensures k < |FailFast(LocaleSteps(manifest, suffixes, build), accepts).trace| ==>
      build(manifest[i], suffixes[j]) == Ok(FailFast(LocaleSteps(manifest, suffixes, build), accepts).trace[k])
  {
    var steps := LocaleSteps(manifest, suffixes, build);
    LocaleStepsAt(manifest, suffixes, build, i, j);
    LocaleStepsLength(manifest, suffixes, build);
    assert k < |steps| && steps[k] == build(manifest[i], suffixes[j]);
    if k < |FailFast(steps, accepts).trace| {
      FailFastCallAt(steps, accepts, k);
    }
  }

  /** A fan-out that completes made one call per entry and suffix. */
  lemma StepsCompletedCount(manifest: seq<Dict>, suffixes: seq<Json>, build: Builder, accepts: Call -> bool)
    requires FailFast(LocaleSteps(manifest, suffixes, build), accepts).outcome == Completed
    ensures |FailFast(LocaleSteps(manifest, suffixes, build), accepts).trace| == |manifest| * |suffixes|
  {
    FailFastCompletedLength(LocaleSteps(manifest, suffixes, build), accepts);
    LocaleStepsLength(manifest, suffixes, build);
  }

  /**
   * The calls of `submit_locale` come entry by entry, and suffix by suffix
   * within an entry: call `i * |suffixes| + j`, if made, is entry `i`'s
   * request for suffix `j`.
   */
  lemma {:induction false} LocaleRunOrder(payload: Dict, manifest: seq<Dict>, config: Dict, auth: Auth, accepts: Call -> bool,
                       suffixes: seq<Json>, i: nat, j: nat)
    requires Suffixes(payload) == Ok(suffixes) && i < |manifest| && j < |suffixes|
    ensures i * |suffixes| + j < |manifest| * |suffixes|
    ensures i * |suffixes| + j < |LocaleRun(payload, manifest, config, auth, accepts).trace| ==>
      LocaleRequest(manifest[i], suffixes[j], auth, config)
      == Ok(LocaleRun(payload, manifest, config, auth, accepts).trace[i * |suffixes| + j])
  {
    var build := LocaleBuilder(auth, config);
    var k := i * |suffixes| + j;
    var r := LocaleRun(payload, manifest, config, auth, accepts);
    LocaleRunSteps(payload, manifest, config, auth, accepts, suffixes);
    assert r == FailFast(LocaleSteps(manifest, suffixes, build), accepts);
    StepsOrderAt(manifest, suffixes, build, accepts, i, j, k);
    if k < |r.trace| {
      assert build(manifest[i], suffixes[j]) == Ok(r.trace[k]);
    }
  }

  /** A locale submission that completes made exactly |manifest| * |suffixes| calls. */
  lemma LocaleRunCompleted(payload: Dict, manifest: seq<Dict>, config: Dict, auth: Auth, accepts: Call -> bool,
                           suffixes: seq<Json>)
    requires Suffixes(payload) == Ok(suffixes)
    requires LocaleRun(payload, manifest, config, auth, accepts).outcome == Completed
    ensures |LocaleRun(payload, manifest, config, auth, accepts).trace| == |manifest| * |suffixes|
  {
    LocaleRunSteps(payload, manifest, config, auth, accepts, suffixes);
    StepsCompletedCount(manifest, suffixes, LocaleBuilder(auth, config), accepts);
  }

  /** With its suffixes read, `submit_locale` is the fail-fast run of its fan-out. */
  lemma LocaleRunSteps(payload: Dict, manifest: seq<Dict>, config: Dict, auth: Auth, accepts: Call -> bool,
                       suffixes: seq<Json>)
    requires Suffixes(payload) == Ok(suffixes)
    ensures LocaleRun(payload, manifest, config, auth, accepts)
         == FailFast(LocaleSteps(manifest, suffixes, LocaleBuilder(auth, config)), accepts)
  {
  }

  /**
   * An entry with neither style marker stops the submission: no call is made
   * for it or for any entry after it.
   */
  lemma UnknownStyleStopsSubmission(payload: Dict, manifest: seq<Dict>, config: Dict, auth: Auth,
                                    accepts: Call -> bool, suffixes: seq<Json>, i: nat)
    requires Suffixes(payload) == Ok(suffixes) && suffixes != []
    requires i < |manifest| && "tc_release" !in manifest[i] && "tc_nightly" !in manifest[i]
    ensures |LocaleRun(payload, manifest, config, auth, accepts).trace| <= i * |suffixes|
    ensures LocaleRun(payload, manifest, config, auth, accepts).outcome != Completed
  {
    var build := LocaleBuilder(auth, config);
    var steps := LocaleSteps(manifest, suffixes, build);
    assert LocaleRun(payload, manifest, config, auth, accepts) == FailFast(steps, accepts);
    LocaleStepsAt(manifest, suffixes, build, i, 0);
    assert steps[i * |suffixes|] == Err(UnknownStyle);
    FailFastStopsAtBuildError(steps, accepts, i * |suffixes|);
    FailFastSpec(steps, accepts);
  }

  /** The fail-fast property of the fan-out, for any request builder. */
  lemma StepsStopAtRejection(manifest: seq<Dict>, suffixes: seq<Json>, build: Builder, accepts: Call -> bool,
                             i: nat, j: nat, rejected: Call)
    requires i < |manifest| && j < |suffixes|
    requires build(manifest[i], suffixes[j]) == Ok(rejected) && !accepts(rejected)
    ensures var r := FailFast(LocaleSteps(manifest, suffixes, build), accepts);
      && |r.trace| <= i * |suffixes| + j + 1
      && r.outcome != Completed
      && (|r.trace| == i * |suffixes| + j + 1 ==>
            r.trace[i * |suffixes| + j] == rejected && r.outcome == Aborted(RegistryError))
  {
    var steps := LocaleSteps(manifest, suffixes, build);
    var k := i * |suffixes| + j;
    LocaleStepsAt(manifest, suffixes, build, i, j);
    assert steps[k] == Ok(rejected);
    FailFastStopsAtRejection(steps, accepts, k);
  }

  /**
   * Fail-fast: when the registry rejects the call for entry `i` and suffix
   * `j`, the submission does not complete and sends nothing after it; if it
   * got that far, that call is the last one made.
   */
  lemma LocaleRunStopsAtRejection(payload: Dict, manifest: seq<Dict>, config: Dict, auth: Auth,
                                  accepts: Call -> bool, suffixes: seq<Json>, i: nat, j: nat, rejected: Call)
    requires Suffixes(payload) == Ok(suffixes)
    requires i < |manifest| && j < |suffixes|
    requires LocaleRequest(manifest[i], suffixes[j], auth, config) == Ok(rejected) && !accepts(rejected)
    ensures var r := LocaleRun(payload, manifest, config, auth, accepts);
      && |r.trace| <= i * |suffixes| + j + 1
      && r.outcome != Completed
      && (|r.trace| == i * |suffixes| + j + 1 ==>
            r.trace[i * |suffixes| + j] == rejected && r.outcome == Aborted(RegistryError))
  {
    StepsStopAtRejection(manifest, suffixes, LocaleBuilder(auth, config), accepts, i, j, rejected);
  }

  /** A property of every request the builder can produce holds of every request of the fan-out. */
  lemma {:induction false} LocaleStepsAll(manifest: seq<Dict>, suffixes: seq<Json>, build: Builder, P: Call -> bool)
    requires forall e, s :: build(e, s).Ok? ==> P(build(e, s).value)
    ensures AllBuiltSatisfy(LocaleSteps(manifest, suffixes, build), P)
    decreases |manifest|
  {
    if manifest != [] {
      var n := |manifest| - 1;
      LocaleStepsAll(manifest[..n], suffixes, build, P);
      var prefix := LocaleSteps(manifest[..n], suffixes, build);
      var row := Row(manifest[n], suffixes, build);
      var steps := LocaleSteps(manifest, suffixes, build);
      assert steps == prefix + row;
      forall k | 0 <= k < |steps| && steps[k].Ok?
        ensures P(steps[k].value)
      {
        if k < |prefix| {
          assert steps[k] == prefix[k];
        } else {
          assert steps[k] == row[k - |prefix|];
        }
      }
    }
  }

  /**
   * Every call of a locale submission is a release-style or nightly-style
   * submission, sent with the configuration's `api_root` and `dummy` and the
   * given credentials.
   */
  lemma LocaleRunCalls(payload: Dict, manifest: seq<Dict>, config: Dict, auth: Auth, accepts: Call -> bool)
    ensures var r := LocaleRun(payload, manifest, config, auth, accepts);
      forall k :: 0 <= k < |r.trace| ==>
        && (r.trace[k].SubmitRelease? || r.trace[k].SubmitNightly?)
        && "api_root" in config && "dummy" in config
        && r.trace[k].client == Client(config["api_root"], auth, config["dummy"])
  {
    var P := (c: Call) =>
      && (c.SubmitRelease? || c.SubmitNightly?)
      && "api_root" in config && "dummy" in config
      && c.client == Client(config["api_root"], auth, config["dummy"]);
    match Suffixes(payload)
    case Err(_) =>
    case Ok(suffixes) =>
      var build := LocaleBuilder(auth, config);
      forall e, s | build(e, s).Ok?
        ensures P(build(e, s).value)
      {
        assert build(e, s) == LocaleRequest(e, s, auth, config);
      }
      LocaleStepsAll(manifest, suffixes, build, P);
      var steps := LocaleSteps(manifest, suffixes, build);
      assert LocaleRun(payload, manifest, config, auth, accepts) == FailFast(steps, accepts);
      FailFastTraceFrom(steps, accepts, P);
      assert forall k :: 0 <= k < |FailFast(steps, accepts).trace| ==> P(FailFast(steps, accepts).trace[k]);
  }
}
