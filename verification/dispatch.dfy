/**
 * The end of `main`: pick the server's configuration with `update_config`,
 * then run the flow the task's action names. Reading the configuration file,
 * the task, its action and its server are inputs here.
 */
module Dispatch {
  import opened JsonValues
  import opened Registry
  import opened ServerConfig
  import opened LocaleSubmission
  import opened TopLevel
  import opened Scheduling

  /** The three flows a task can ask for. */
  datatype Flow = TopLevelFlow | ScheduleFlow | LocaleFlow

  /** `submit-toplevel` and `schedule` name their flows; every other action submits locales. */
  function FlowFor(action: string): (f: Flow)
    ensures f == TopLevelFlow <==> action == "submit-toplevel"
    ensures f == ScheduleFlow <==> action == "schedule"
    ensures f == LocaleFlow <==> action != "submit-toplevel" && action != "schedule"
  {
    if action == "submit-toplevel" then TopLevelFlow
    else if action == "schedule" then ScheduleFlow
    else LocaleFlow
  }

  /** The kinds of request a flow sends. */
  predicate CallOfFlow(f: Flow, c: Call) {
    match f
    case TopLevelFlow => c.CreateRelease? || c.PushRelease?
    case ScheduleFlow => c.ScheduleRelease?
    case LocaleFlow => c.SubmitRelease? || c.SubmitNightly?
  }

  /** The flow the action selects, run with the updated configuration and the credentials. */
  function DispatchRun(action: string, payload: Dict, manifest: seq<Dict>, config: Dict, auth: Auth,
                       order: seq<string>, accepts: Call -> bool): (r: Run)
    requires KeyOrderFor(payload, order)
    ensures action == "schedule" ==> |r.trace| <= 1
  {
    match FlowFor(action)
    case TopLevelFlow => TopLevelRun(payload, config, auth, order, accepts)
    case ScheduleFlow => ScheduleRun(payload, config, auth, accepts)
    case LocaleFlow => LocaleRun(payload, manifest, config, auth, accepts)
  }

  /** The `if`/`elif`/`else` of `main`, calling each flow's own implementation. */
  method Dispatch(action: string, payload: Dict, manifest: seq<Dict>, config: Dict, auth: Auth,
                  order: seq<string>, accepts: Call -> bool)
    returns (r: Run)
    requires KeyOrderFor(payload, order)
    ensures r == DispatchRun(action, payload, manifest, config, auth, order, accepts)
  {
    if action == "submit-toplevel" {
      r := SubmitTopLevel(payload, config, auth, order, accepts);
    } else if action == "schedule" {
      r := ScheduleRun(payload, config, auth, accepts);
    } else {
      r := SubmitLocale(payload, manifest, config, auth, accepts);
    }
  }

  /** Every request a dispatched flow sends is of the kind its action names and uses the given client settings. */
  lemma DispatchCallKinds(action: string, payload: Dict, manifest: seq<Dict>, config: Dict, auth: Auth,
                          order: seq<string>, accepts: Call -> bool)
    requires KeyOrderFor(payload, order)
    ensures RunUses(FlowFor(action), DispatchRun(action, payload, manifest, config, auth, order, accepts), config, auth)
  {
    match FlowFor(action)
    case TopLevelFlow => TopLevelUses(payload, config, auth, order, accepts);
    case ScheduleFlow => ScheduleUses(payload, config, auth, accepts);
    case LocaleFlow => LocaleUses(payload, manifest, config, auth, accepts);
  }

  /** The top-level flow sends only creations and the push, through the given client. */
  lemma TopLevelUses(payload: Dict, config: Dict, auth: Auth, order: seq<string>, accepts: Call -> bool)
    requires KeyOrderFor(payload, order)
    ensures RunUses(TopLevelFlow, TopLevelRun(payload, config, auth, order, accepts), config, auth)
  {
    TopLevelRunCalls(payload, config, auth, order, accepts);
  }

  /** The scheduling flow sends only its one scheduling request, through the given client. */
  lemma ScheduleUses(payload: Dict, config: Dict, auth: Auth, accepts: Call -> bool)
    ensures RunUses(ScheduleFlow, ScheduleRun(payload, config, auth, accepts), config, auth)
  {
    ScheduleRunCalls(payload, config, auth, accepts);
  }

  /** The locale flow sends only locale submissions, through the given client. */
  lemma LocaleUses(payload: Dict, manifest: seq<Dict>, config: Dict, auth: Auth, accepts: Call -> bool)
    ensures RunUses(LocaleFlow, LocaleRun(payload, manifest, config, auth, accepts), config, auth)
  {
    LocaleRunCalls(payload, manifest, config, auth, accepts);
  }

  /** Every call of the run is of the flow's kind and goes through the client of `config` and `auth`. */
  ghost predicate RunUses(f: Flow, r: Run, config: Dict, auth: Auth) {
    forall k :: 0 <= k < |r.trace| ==>
      && CallOfFlow(f, r.trace[k])
      && "api_root" in config && "dummy" in config
      && r.trace[k].client == Client(config["api_root"], auth, config["dummy"])
  }

  /** `main` from the chosen server on: `update_config`, then the dispatch; a failed update sends nothing. */
  function TaskRun(action: string, server: string, payload: Dict, manifest: seq<Dict>, config: Dict,
                   order: seq<string>, accepts: Call -> bool): (r: Run)
    requires KeyOrderFor(payload, order)
    ensures UpdateConfig(config, server).Err? ==> r == Run([], Aborted(UpdateConfig(config, server).error))
  {
    match UpdateConfig(config, server)
    case Err(e) => Run([], Aborted(e))
    case Ok((auth, updated)) => DispatchRun(action, payload, manifest, updated, auth, order, accepts)
  }

  /** The same, statement by statement. */
  method RunTask(action: string, server: string, payload: Dict, manifest: seq<Dict>, config: Dict,
                 order: seq<string>, accepts: Call -> bool)
    returns (r: Run)
    requires KeyOrderFor(payload, order)
    ensures r == TaskRun(action, server, payload, manifest, config, order, accepts)
  {
    var updated := UpdateConfig(config, server);
    if updated.Err? {
      return Run([], Aborted(updated.error));
    }
    var (auth, cfg) := updated.value;
    r := Dispatch(action, payload, manifest, cfg, auth, order, accepts);
  }

  /**
   * Every request a task sends goes to the chosen server: its `api_root`, its
   * username and password, and the configuration's own `dummy`; and it is of
   * the kind the action names. Without a complete entry for the server, no
   * request is sent at all.
   */
  lemma TaskCallsUseServer(action: string, server: string, payload: Dict, manifest: seq<Dict>, config: Dict,
                           order: seq<string>, accepts: Call -> bool)
    requires KeyOrderFor(payload, order)
    ensures var r := TaskRun(action, server, payload, manifest, config, order, accepts);
      && (!HasServerEntry(config, server) ==> r.trace == [] && r.outcome.Aborted?)
      && (HasServerEntry(config, server) ==>
            var entry := config["server_config"].fields[server].fields;
            forall k :: 0 <= k < |r.trace| ==>
              && CallOfFlow(FlowFor(action), r.trace[k])
              && "dummy" in config
              && r.trace[k].client ==
                   Client(entry["api_root"], Auth(entry["balrog_username"], entry["balrog_password"]), config["dummy"]))
  {
    var u := UpdateConfig(config, server);
    if u.Ok? {
      var auth, updated := u.value.0, u.value.1;
      DispatchCallKinds(action, payload, manifest, updated, auth, order, accepts);
      var trace := DispatchRun(action, payload, manifest, updated, auth, order, accepts).trace;
      if |trace| > 0 {
        assert CallOfFlow(FlowFor(action), trace[0]);
        assert "dummy" in updated;
        assert updated["dummy"] == config["dummy"];
      }
    }
  }
}
