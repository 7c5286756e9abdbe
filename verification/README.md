# balrogscript core, modelled in Dafny

balrogscript is a release-pipeline worker. It turns one task into a sequence
of calls to Balrog, the update-release registry. The task carries an action,
a payload and a server name. Three actions are handled:

* **Locale submission** (`submit_locale`). The manifest is a list of locale
  entries. The worker sends one submission per entry and per suffix, in
  manifest-then-suffix order. An entry marked `tc_release` goes to the
  release submitter under the suffix `blob_suffix + suffix`. An entry marked
  `tc_nightly` goes to the nightly submitter with its `url_replacements`.
  When there is at least one suffix, an entry with neither marker is fatal.
* **Top-level submission** (`submit_toplevel`). First `partial_versions`
  (`"56.0build1, 57.0build2"`) is parsed into a map from version to build
  number. Then one release-creation call is sent per key of `update_line`
  (or a single one for the empty suffix). After that, exactly one push call
  is sent under the base `blob_suffix`.
* **Scheduling** (`schedule`). One scheduler call is sent, whose ETA is
  `None` when the payload's ETA is falsy.

Before dispatching, `update_config` replaces `server_config` with the chosen
server's `api_root`, and takes out that server's username and password.

Every registry call is made through `retry`. The flows are sequential and
fail fast: the first exception (a missing key, a malformed token, a call
that still fails after its retries) ends the run, and calls already made are
not undone.

The model has these parts:

* `JsonValues`: JSON values, dictionaries, Python truthiness, and the
  exceptions as a `Result`.
* `Strings`: `str.strip`, `str.split` and `str.capitalize`.
* `Registry`: the requests sent to the registry clients, and `FailFast`.
  `FailFast` is the reference semantics of issuing requests one after the
  other. Whether the registry accepts a request, after retries, is an
  oracle `accepts`.
* `ServerConfig`: `update_config`.
* `PartialVersions`: the `partial_versions` parser.
* `LocaleSubmission`: `create_locale_submitter` and `submit_locale`.
* `TopLevel`: `submit_toplevel`.
* `Scheduling`: `schedule`.
* `Dispatch`: the action dispatch at the end of `main`.

The flows with loops are `method`s written the way the source is written.
`SubmitLocale` has nested loops. `ParsePartialVersions` is a loop that fills
a map. `SubmitTopLevel` is a loop followed by one more call. The dispatch in
`main` is the method `Dispatch`, and `main` from `update_config` on is the
method `RunTask`. Each method is proved equal to a specification function:
`SubmitLocale` to `LocaleRun`, `ParsePartialVersions` to the fold
`PartialVersionsOf`, `SubmitTopLevel` to `TopLevelRun`, `Dispatch` to
`DispatchRun` and `RunTask` to `TaskRun`. `LocaleRun` and `TopLevelRun`
build all requests and hand them to `FailFast`. The properties are then
proved about those functions. `schedule` has no loop and makes a single
call, so it is modelled by the function `ScheduleRun` alone.

Points where the code behaves differently from what its names suggest:

* `capitalize` upper-cases the first character and lower-cases all the
  others.
* Only the whole partial-version token is stripped. The version and the
  build number around `build` keep any whitespace they have.
* An entry that carries both style markers is submitted in release style.
* An entry with neither marker raises only when the loop reaches it. The
  submissions for earlier entries have been made by then.
* `release_eta or None` sends `None` for every falsy ETA: `""`, `0`, `false`,
  `[]`, `{}` and `null`. An absent `release_eta` raises `KeyError`.
* The nightly style does not use the extra suffix. With several suffixes,
  the same nightly request is sent once per suffix.

## Model

| member | source | states |
|---|---|---|
| Strings.Strip | balrogscript/script.py:143 | the result is the input with its leading whitespace and its trailing whitespace cut off: a slice of the input that starts after the leading whitespace, is followed only by whitespace, and neither starts nor ends with whitespace |
| Strings.LeadingSpaces | balrogscript/script.py:143 | counts the whitespace the string starts with: every character before the count is whitespace, and the one at the count is not |
| Strings.TokenCharNotSpace | balrogscript/script.py:143-144 | digits, ASCII letters, commas and dots are not whitespace, so `strip` never removes them |
| Strings.StripUnpadded | balrogscript/script.py:143 | stripping a string without outer whitespace leaves it unchanged |
| Strings.TrimStart | balrogscript/script.py:143 | only leading whitespace is removed, and the result is a suffix of the input |
| Strings.TrimEnd | balrogscript/script.py:143 | only trailing whitespace is removed, and the result is a prefix of the input |
| Strings.IndexFrom | balrogscript/script.py:144 | finds the first occurrence of the separator at or after `from`, or reports that there is none |
| Strings.Split | balrogscript/script.py:142 | at least one part; joining the parts with the separator gives back the input; no part contains the separator |
| Strings.SplitJoin | balrogscript/script.py:142 | splitting a join of separator-free parts gives back the parts |
| Strings.Join | balrogscript/script.py:142 | a join of parts starts with the first part |
| Strings.FirstOccurrenceAfter | balrogscript/script.py:144 | in `a + sep + b` with no `sep` in `a`, the first `sep` is right after `a` |
| Strings.Capitalize | balrogscript/script.py:115 | same length; the first character is not lower-case and no later character is upper-case |
| Strings.CapitalizeKeepsLetters | balrogscript/script.py:160 | capitalizing changes only letter case |
| JsonValues.Lookup | balrogscript/script.py:43-52 | `d[key]` succeeds exactly when the key is present, and otherwise raises `KeyError(key)` |
| JsonValues.GetOr | balrogscript/script.py:39 | `d.get(key, default)` is the value under the key when present, and the default otherwise |
| JsonValues.BlobSuffix | balrogscript/script.py:112 | `blob_suffix` when present, and `""` otherwise |
| JsonValues.Truthy | balrogscript/script.py:119 | a value is falsy exactly when it is `None`, `False`, `0`, `""`, `[]` or `{}` |
| Registry.FailFast | balrogscript/script.py:93-98 | a sequential run never makes more calls than it has requests |
| Registry.FailFastSpec | balrogscript/script.py:93-98 | the calls made are the first requests in order; the run completes iff every request was built and accepted; otherwise it stopped at the one rejected call (the last one made) or at the first request that could not be built, which was never sent |
| Registry.FailFastAppend | balrogscript/script.py:149-183 | running two batches back to back is the first batch, then the second only if the first completed |
| Registry.FailFastAcceptedBeforeLast | balrogscript/script.py:93-98 | every call but the last one made was accepted by the registry |
| Registry.FailFastFirstRejection | balrogscript/script.py:93-98 | when the first rejected request is at k, exactly k+1 calls are made and the run ends with the registry error |
| Registry.FailFastStopsAtRejection | balrogscript/script.py:93-98 | nothing after a rejected request is sent, and the run does not complete |
| Registry.FailFastStopsAtBuildError | balrogscript/script.py:93-98 | nothing at or after a request that cannot be built is sent |
| Registry.FailFastTraceFrom | balrogscript/script.py:93-98 | every call made is one of the requests, so a property of all requests holds of every call |
| Registry.FailFastCallAt | balrogscript/script.py:93-98 | call k of a run is request k, which was built |
| Registry.FailFastCompletedLength | balrogscript/script.py:93-98 | a completed run made one call per request |
| ServerConfig.UpdateConfig | balrogscript/script.py:204-213 | succeeds iff the server's entry exists with `api_root`, `balrog_username` and `balrog_password`; the credentials are that pair; the new configuration has the server's `api_root`, loses `server_config` and keeps every other key; a missing `server_config` or server raises `KeyError` |
| ServerConfig.UpdateConfigOnce | balrogscript/script.py:211 | the returned configuration has no `server_config`, so updating it again raises `KeyError` |
| PartialVersions.ParseToken | balrogscript/script.py:143-144 | on success the stripped token is `version + "build" + number` with no `build` in either half; otherwise the error names the stripped token |
| PartialVersions.ParseTokenRoundTrip | balrogscript/script.py:143-144 | a token made of a version and a number that do not contain `build`, where the version does not start with whitespace and the number does not end with it, parses back to that pair |
| PartialVersions.PaddedTokenRoundTrip | balrogscript/script.py:143 | the space after the comma is stripped before splitting on `build` |
| PartialVersions.PartialVersionsOf | balrogscript/script.py:141 | a falsy or absent `partial_versions` gives no partials; a truthy non-string raises |
| PartialVersions.ParsePartialVersions | balrogscript/script.py:140-145 | the loop that fills `partials` computes `PartialVersionsOf` |
| PartialVersions.Collect | balrogscript/script.py:142-145 | no tokens give no partials; there are never more partials than tokens |
| PartialVersions.CollectOk | balrogscript/script.py:142-145 | parsing succeeds iff every comma-separated token parses |
| PartialVersions.CollectKeys | balrogscript/script.py:145 | the versions of the result are exactly the versions of the tokens |
| PartialVersions.CollectLastWins | balrogscript/script.py:145 | for a repeated version, the build number of its last token is kept |
| PartialVersions.CollectFirstError | balrogscript/script.py:142-144 | the exception raised is the one of the first malformed token |
| PartialVersions.CollectStopsAtError | balrogscript/script.py:142-144 | once a prefix of the tokens fails, the whole parse fails with the same exception |
| PartialVersions.PartialsJson | balrogscript/script.py:145 | the partials map each version to `{"buildNumber": number}`, with the same keys |
| PartialVersions.PartialVersionsExample | balrogscript/script.py:141-145 | `"56.0build1, 57.0build2"` parses to `{56.0: 1, 57.0: 2}` |
| PartialVersions.ExampleSplit | balrogscript/script.py:142 | splitting that string on `,` gives the two tokens, the second with its leading space |
| LocaleSubmission.ReleaseSuffix | balrogscript/script.py:39 | the release suffix is the entry's `blob_suffix` (default empty) followed by the extra suffix |
| LocaleSubmission.WithPartialInfo | balrogscript/script.py:54-55 | `partialInfo` is added iff the entry has one, with the entry's value, and nothing else changes |
| LocaleSubmission.ReleaseData | balrogscript/script.py:42-53 | the ten release fields, each taken from its manifest key; a missing key raises `KeyError` |
| LocaleSubmission.NightlyData | balrogscript/script.py:65-75 | the nine nightly fields, each taken from its manifest key; a missing key raises `KeyError` |
| LocaleSubmission.ReleaseRequest | balrogscript/script.py:33-56 | built iff `api_root`, `dummy`, a string suffix and every release key are there; a release submission with the configured client and the derived suffix, whose data has the release fields plus `partialInfo` exactly when the entry has one |
| LocaleSubmission.NightlyRequest | balrogscript/script.py:58-78 | built iff `api_root`, `dummy` and every nightly key are there; a nightly submission with the configured client and `url_replacements` (default `[]`), whose data has the nightly fields plus `partialInfo` exactly when the entry has one |
| LocaleSubmission.ReleaseRequestData | balrogscript/script.py:42-55 | a release submission sends the ten release fields, each from its manifest key, plus the entry's `partialInfo` when it has one, and no `branch` |
| LocaleSubmission.NightlyRequestData | balrogscript/script.py:65-77 | a nightly submission sends the nine nightly fields, each from its manifest key, plus the entry's `partialInfo` when it has one, and no `version` or `build_number` |
| LocaleSubmission.LocaleRequest | balrogscript/script.py:30-80 | `RuntimeError` iff neither marker is present; release style iff `tc_release` is present, otherwise nightly; the client is built from `api_root`, the credentials and `dummy` |
| LocaleSubmission.ReleaseMarkerWins | balrogscript/script.py:33-58 | an entry with both markers is submitted in release style |
| LocaleSubmission.NightlyIgnoresSuffix | balrogscript/script.py:58-78 | the nightly request does not depend on the extra suffix |
| LocaleSubmission.Suffixes | balrogscript/script.py:91 | an absent `suffixes` means the single empty suffix; a list is used as given; a string gives its characters, one suffix each; any other value raises `WrongType`, and only such a value raises |
| LocaleSubmission.Row | balrogscript/script.py:94-96 | one request per suffix, in suffix order |
| LocaleSubmission.LocaleSteps | balrogscript/script.py:93-96 | an empty manifest or an empty suffix list gives no requests |
| LocaleSubmission.LocaleStepsLength | balrogscript/script.py:93-96 | there are `|manifest| * |suffixes|` requests |
| LocaleSubmission.LocaleStepsAt | balrogscript/script.py:93-96 | request `i * |suffixes| + j` is entry i with suffix j: manifest-major order |
| LocaleSubmission.LocaleStepsAppend | balrogscript/script.py:93 | the requests of two manifests back to back are the requests of their concatenation |
| LocaleSubmission.SubmitLocale | balrogscript/script.py:84-98 | the nested loops make exactly the run `LocaleRun` specifies |
| LocaleSubmission.LocaleRun | balrogscript/script.py:84-98 | suffixes that cannot be iterated end the run before any call, and it completes only for an empty manifest; an empty manifest or suffix list completes with no call |
| LocaleSubmission.LocaleRunCompleted | balrogscript/script.py:93-98 | a completed run made exactly `|manifest| * |suffixes|` calls |
| LocaleSubmission.LocaleRunOrder | balrogscript/script.py:93-98 | in any run, call `i * |suffixes| + j`, if it was made, is entry i's request for suffix j; that position lies within the fan-out |
| LocaleSubmission.StepsOrderAt | balrogscript/script.py:93-98 | the same, for any request builder |
| LocaleSubmission.StepsCompletedCount | balrogscript/script.py:93-98 | for any request builder, a completed fan-out made one call per entry and suffix |
| LocaleSubmission.LocaleRunSteps | balrogscript/script.py:91-98 | once the suffixes are read, the run is the fail-fast run of the fan-out |
| LocaleSubmission.UnknownStyleStopsSubmission | balrogscript/script.py:79-80 | with at least one suffix, an entry with neither marker stops the run before any of its own calls or later ones |
| LocaleSubmission.StepsStopAtRejection | balrogscript/script.py:93-98 | for any request builder, nothing after a rejected request is sent |
| LocaleSubmission.LocaleRunStopsAtRejection | balrogscript/script.py:93-98 | a rejected submission is the last call, and the run does not complete |
| LocaleSubmission.LocaleStepsAll | balrogscript/script.py:93-96 | a property of every request the builder can make holds of every request of the run |
| LocaleSubmission.LocaleRunCalls | balrogscript/script.py:36-38 | every call is a release or nightly submission through a client built from `api_root`, the credentials and `dummy` |
| TopLevel.UpdateLine | balrogscript/script.py:147 | `update_line` when present, and `{}` otherwise |
| TopLevel.UpdateLineSuffixes | balrogscript/script.py:147 | the suffixes are exactly the keys of `update_line`, or `[""]` when it is absent or empty; never empty; a non-dict raises |
| TopLevel.UpdateLineSuffixCount | balrogscript/script.py:147 | there is one suffix per key of `update_line`, or one when there are no keys |
| TopLevel.DistinctCard | balrogscript/script.py:147 | a duplicate-free key order has as many elements as its set of keys |
| TopLevel.UpdateLineEntry | balrogscript/script.py:170 | the `update_line` entry for the suffix when there is one, and `None` otherwise |
| TopLevel.CreationArgsFor | balrogscript/script.py:158-171 | the creation arguments: capitalized product, `sha512`, the parsed partials, the suffix's `update_line` entry, and the other payload fields passed through; a missing key raises |
| TopLevel.CreateRequest | balrogscript/script.py:150-171 | a creation with the configured client, suffix `blob_suffix + suffix`, the two MAR patterns (default `None`), and those arguments |
| TopLevel.PushRequest | balrogscript/script.py:173-183 | a push with the configured client, the base `blob_suffix`, the capitalized product, version, build number and `rules_to_update` |
| TopLevel.Creations | balrogscript/script.py:149-171 | one creation request per suffix, in suffix order |
| TopLevel.TopLevelSteps | balrogscript/script.py:149-183 | the creation for each suffix, in suffix order, then the push, which is last |
| TopLevel.SubmitTopLevel | balrogscript/script.py:137-183 | the parse, the creation loop and the push make exactly the run `TopLevelRun` specifies |
| TopLevel.TopLevelRun | balrogscript/script.py:137-183 | a malformed `partial_versions` or a non-dict `update_line` ends the run before any call, with the parse's own exception for the former |
| TopLevel.TopLevelStepsSpec | balrogscript/script.py:149-183 | at most one call per suffix plus the push; calls are the creations in order, then the push; completed iff the push was made and accepted |
| TopLevel.TopLevelCalls | balrogscript/script.py:137-183 | the same, stated with the request builders of `submit_toplevel` |
| TopLevel.PushOnlyLast | balrogscript/script.py:173-183 | the push is made only after every creation, and only once |
| TopLevel.FailedCreationMeansNoPush | balrogscript/script.py:158-183 | if any creation cannot be built or is rejected, the push is never made and the run does not complete |
| TopLevel.CreationsAcceptedMeansPush | balrogscript/script.py:158-183 | if every creation is built and accepted and the push can be built, the push is call number `|suffixes|` and the run completes exactly when the push is accepted |
| TopLevel.StepsPushMade | balrogscript/script.py:158-183 | for any creator: when every creation is built and accepted, the push follows them as the last call and decides the outcome |
| TopLevel.TopLevelCompletedCount | balrogscript/script.py:147-183 | a completed run made one creation per `update_line` key (one if none) plus one push |
| TopLevel.TopLevelStepsAll | balrogscript/script.py:149-183 | a property of every creation request and of the push request holds of every request |
| TopLevel.TopLevelRunCalls | balrogscript/script.py:150-152 | every call is a creation or a push through a client built from `api_root`, the credentials and `dummy` |
| TopLevel.TopLevelRequestsSent | balrogscript/script.py:150-177 | every creation and the push is built with the client of `api_root`, the credentials and `dummy` |
| Scheduling.EtaOrNone | balrogscript/script.py:119 | a truthy ETA is sent unchanged; a falsy one becomes `None` |
| Scheduling.EtaNeverEmpty | balrogscript/script.py:119 | the empty string is never sent as the ETA |
| Scheduling.ScheduleArgs | balrogscript/script.py:114-120 | five positional arguments: capitalized product, version, build number, publish rules, ETA or `None`; a missing key raises |
| Scheduling.ScheduleRequest | balrogscript/script.py:109-120 | a scheduler call with the configured client, the base `blob_suffix` and those arguments |
| Scheduling.ScheduleRun | balrogscript/script.py:125 | scheduling makes at most one call |
| Scheduling.ScheduleRunSpec | balrogscript/script.py:106-125 | a request that cannot be built is never sent; otherwise it is the one call; completed iff accepted |
| Scheduling.ScheduleRunCalls | balrogscript/script.py:109-113 | the call is a scheduler request through a client built from `api_root`, the credentials and `dummy` |
| Dispatch.FlowFor | balrogscript/script.py:250-255 | `submit-toplevel` and `schedule` select their flows; every other action submits locales |
| Dispatch.DispatchRun | balrogscript/script.py:250-255 | the `schedule` action makes at most one call |
| Dispatch.Dispatch | balrogscript/script.py:250-255 | the `if`/`elif`/`else` runs `SubmitTopLevel` or `SubmitLocale` for their actions and evaluates `ScheduleRun` for `schedule`; the result is exactly the run `DispatchRun` specifies |
| Dispatch.DispatchCallKinds | balrogscript/script.py:250-255 | every call is of the kind the action names and uses the given client settings |
| Dispatch.TopLevelUses | balrogscript/script.py:250-251 | `submit-toplevel` sends only creations and the push, through the given client |
| Dispatch.ScheduleUses | balrogscript/script.py:252-253 | `schedule` sends only a scheduler call, through the given client |
| Dispatch.LocaleUses | balrogscript/script.py:254-255 | every other action sends only locale submissions, through the given client |
| Dispatch.TaskRun | balrogscript/script.py:247-255 | a failed `update_config` ends the task with its exception before any call |
| Dispatch.RunTask | balrogscript/script.py:247-255 | `update_config`, then the dispatch with the updated configuration and credentials |
| Dispatch.TaskCallsUseServer | balrogscript/script.py:247-255 | without a complete entry for the server, no call is made; otherwise every call goes to that server's `api_root` with its username and password and the configuration's `dummy`, and is of the kind the action names |

## Left out

- Reading the configuration file, logging and `usage` (`load_config`, `setup_config`, `setup_logging`) are I/O. The configuration is an input.
- The task helpers are outside this model: `get_task`, `get_task_action`, `get_task_server`, `get_manifest`, `get_upstream_artifacts` and `validate_task_schema`. The action, server name, payload and manifest are inputs. The model starts from `task['payload']`.
- The registry clients (`ReleaseSubmitterV9`, `NightlySubmitterV4`, `ReleaseCreatorV9`, `ReleasePusher`, `ReleaseScheduler`) are not part of this model. A call is recorded with its constructor and `run` arguments.
- `retry` and its backoff are not modelled. Whether a call is accepted after its retries is the oracle `accepts`. It is a fixed function of the request, so the model cannot express a registry whose answer changes during a run.
- The iteration order of `update_line.keys()` is an input, `order`. It is required to list the keys once each. Python's dictionary order is not modelled.
- `deepcopy` in `update_config` needs no counterpart. Values are immutable, so the caller's configuration is never changed.
- Strings.Capitalize: maps case for ASCII letters only. Python's Unicode case mapping is not modelled.
- Strings.IsSpace: the whitespace set is that of Python 2.7 on `unicode` values (Unicode 5.2, with U+180E). Byte strings, which Python 2.7 strips of ASCII whitespace only, are not distinguished.
- LocaleSubmission.Suffixes: a dictionary `suffixes` is modelled as an error. Python would iterate over its keys.
- LocaleSubmission.ReleaseSuffix: a non-string `blob_suffix` or suffix is modelled as an error. Python would instead concatenate two lists, or add two numbers.
- PartialVersions.PartialVersionsOf: its own contract states only the falsy and non-string cases. The string case is stated by `CollectOk`, `CollectKeys`, `CollectLastWins` and `CollectFirstError`, about the fold `Collect` it uses.
- JSON numbers are integers only. Floats are not modelled.
