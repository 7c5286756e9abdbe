/**
 * `update_config`: picks one server out of `server_config`, returning its
 * credentials and a copy of the configuration that carries the server's
 * `api_root` and no longer carries `server_config`.
 *
 * Values are immutable here, so the copy that `deepcopy` makes in the source
 * is implicit: the caller's configuration is never changed.
 */
module ServerConfig {
  import opened JsonValues
  import opened Registry

  /** `config['server_config'][server]` exists and is a dict holding the three keys read. */
  predicate HasServerEntry(config: Dict, server: string) {
    && "server_config" in config
    && config["server_config"].JObj?
    && server in config["server_config"].fields
    && config["server_config"].fields[server].JObj?
    && var entry := config["server_config"].fields[server].fields;
       "api_root" in entry && "balrog_username" in entry && "balrog_password" in entry
  }

  /** The updated configuration and the credentials, or the exception `update_config` raises. */
  function UpdateConfig(config: Dict, server: string): (r: Result<(Auth, Dict)>)
    ensures r.Ok? <==> HasServerEntry(config, server)
    ensures r.Ok? ==>
      var entry := config["server_config"].fields[server].fields;
      var (auth, updated) := r.value;
      && auth == Auth(entry["balrog_username"], entry["balrog_password"])
      && updated.Keys == config.Keys - {"server_config"} + {"api_root"}
      && updated["api_root"] == entry["api_root"]
      && (forall k :: k in config && k != "server_config" && k != "api_root" ==> updated[k] == config[k])
    ensures "server_config" !in config ==> r == Err(KeyError("server_config"))
    ensures "server_config" in config && config["server_config"].JObj? && server !in config["server_config"].fields
            ==> r == Err(KeyError(server))
  {
    var servers :- Lookup(config, "server_config");
    if !servers.JObj? then Err(WrongType("server_config"))
    else
      var entry :- Lookup(servers.fields, server);
      if !entry.JObj? then Err(WrongType(server))
      else
        var apiRoot :- Lookup(entry.fields, "api_root");
        var username :- Lookup(entry.fields, "balrog_username");
        var password :- Lookup(entry.fields, "balrog_password");
        Ok((Auth(username, password), config["api_root" := apiRoot] - {"server_config"}))
  }

  /** The configuration `update_config` returns cannot be updated again: its `server_config` is gone. */
  lemma UpdateConfigOnce(config: Dict, server: string, again: string)
    requires UpdateConfig(config, server).Ok?
    ensures UpdateConfig(UpdateConfig(config, server).value.1, again) == Err(KeyError("server_config"))
  {
  }
}
