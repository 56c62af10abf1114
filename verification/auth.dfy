/** Authentication: the handler's state (a type and a credentials map), the
    setters that may raise, the header and Basic-tuple getters, and the
    factory that builds a handler from a configuration dictionary. The
    process environment is an explicit map. */
module Auth {
  import opened Wrappers
  import opened Text

  datatype AuthKind = Bearer | ApiKey | Basic

  /** The state of an `AuthHandler`. */
  datatype AuthHandler = AuthHandler(authType: Option<AuthKind>, credentials: map<string, string>)

  /** `AuthHandler()`. */
  const Unconfigured: AuthHandler := AuthHandler(None, map[])

  /** Environment variables by name. */
  type Env = map<string, string>

  const DefaultApiKeyHeader: string := "X-API-Key"

  /** The state a setter leaves behind and, when it raised ValueError, the message. */
  datatype SetResult = SetResult(handler: AuthHandler, error: Option<string>)

  /** Every credential other than those in `keys` is untouched. */
  predicate OnlyChanges(before: map<string, string>, after: map<string, string>, keys: set<string>) {
    && before.Keys - keys == after.Keys - keys
    && forall k :: k in before && k !in keys ==> k in after && after[k] == before[k]
  }

  /** A direct value when truthy, otherwise the named environment variable
      when both name and value are truthy. */
  function ResolveSecret(direct: Option<string>, envName: Option<string>, env: Env): Option<string> {
    if Truthy(direct) then direct
    else if Truthy(envName) && Truthy(Get(env, envName.value)) then Get(env, envName.value)
    else None
  }

  function MissingSecretError(envName: Option<string>, directName: string, envParam: string): string {
    if Truthy(envName) then "Environment variable '" + envName.value + "' not found"
    else "Either " + directName + " or " + envParam + " must be provided"
  }

  /** `set_bearer_token`: the type becomes bearer before anything can fail. */
  function SetBearerToken(h: AuthHandler, token: Option<string>, tokenEnv: Option<string>, env: Env): (r: SetResult)
    ensures r.handler.authType == Some(Bearer)
    ensures r.error.None? <==> (Truthy(token) || (Truthy(tokenEnv) && Truthy(Get(env, tokenEnv.value))))
    ensures r.error.None? ==> "token" in r.handler.credentials && r.handler.credentials["token"] != ""
    ensures Truthy(token) ==> r.handler.credentials["token"] == token.value
    ensures !Truthy(token) && r.error.None? ==> r.handler.credentials["token"] == env[tokenEnv.value]
    ensures r.error.Some? ==> r.handler.credentials == h.credentials
    ensures OnlyChanges(h.credentials, r.handler.credentials, {"token"})
  {
    var h' := h.(authType := Some(Bearer));
    var secret := ResolveSecret(token, tokenEnv, env);
    if secret.Some? then SetResult(h'.(credentials := h'.credentials["token" := secret.value]), None)
    else SetResult(h', Some(MissingSecretError(tokenEnv, "token", "token_env")))
  }

  /** `set_api_key`: the type and the header name are stored before anything can fail. */
  function SetApiKey(h: AuthHandler, apiKey: Option<string>, keyEnv: Option<string>, headerName: string, env: Env): (r: SetResult)
    ensures r.handler.authType == Some(ApiKey)
    ensures r.handler.credentials.Keys >= {"header_name"} && r.handler.credentials["header_name"] == headerName
    ensures r.error.None? <==> (Truthy(apiKey) || (Truthy(keyEnv) && Truthy(Get(env, keyEnv.value))))
    ensures r.error.None? ==> "api_key" in r.handler.credentials && r.handler.credentials["api_key"] != ""
    ensures Truthy(apiKey) ==> r.handler.credentials["api_key"] == apiKey.value
    ensures !Truthy(apiKey) && r.error.None? ==> r.handler.credentials["api_key"] == env[keyEnv.value]
    ensures r.error.Some? ==> OnlyChanges(h.credentials, r.handler.credentials, {"header_name"})
    ensures OnlyChanges(h.credentials, r.handler.credentials, {"header_name", "api_key"})
  {
    var h' := AuthHandler(Some(ApiKey), h.credentials["header_name" := headerName]);
    var secret := ResolveSecret(apiKey, keyEnv, env);
    if secret.Some? then SetResult(h'.(credentials := h'.credentials["api_key" := secret.value]), None)
    else SetResult(h', Some(MissingSecretError(keyEnv, "api_key", "key_env")))
  }

  /** `set_basic_auth`: never fails, even for empty strings. */
  function SetBasicAuth(h: AuthHandler, username: string, password: string): (r: AuthHandler)
    ensures r.authType == Some(Basic)
    ensures r.credentials.Keys == h.credentials.Keys + {"username", "password"}
    ensures r.credentials["username"] == username && r.credentials["password"] == password
    ensures OnlyChanges(h.credentials, r.credentials, {"username", "password"})
  {
    AuthHandler(Some(Basic), h.credentials["username" := username]["password" := password])
  }

  /** `get_auth_headers`. */
  function GetAuthHeaders(h: AuthHandler): (headers: map<string, string>)
    ensures h.authType == Some(Bearer) ==> headers.Keys == {"Authorization"}
    ensures h.authType == Some(Bearer) && "token" in h.credentials ==>
      headers["Authorization"] == "Bearer " + h.credentials["token"]
    ensures h.authType == Some(Bearer) && "token" !in h.credentials ==> headers["Authorization"] == "Bearer "
    ensures h.authType == Some(ApiKey) ==> |headers| == 1
    ensures h.authType == Some(ApiKey) && "header_name" in h.credentials && "api_key" in h.credentials ==>
      headers == map[h.credentials["header_name"] := h.credentials["api_key"]]
    ensures h.authType !in {Some(Bearer), Some(ApiKey)} ==> headers == map[]
  {
    match h.authType
    case Some(Bearer) =>
      map["Authorization" := "Bearer " + GetOrDefault(h.credentials, "token", "")]
    case Some(ApiKey) =>
      map[GetOrDefault(h.credentials, "header_name", DefaultApiKeyHeader) := GetOrDefault(h.credentials, "api_key", "")]
    case _ => map[]
  }

  /** `get_basic_auth_tuple`: both parts must be present and non-empty. */
  function GetBasicAuthTuple(h: AuthHandler): (t: Option<(string, string)>)
    ensures t.Some? <==> (h.authType == Some(Basic) && Truthy(Get(h.credentials, "username")) && Truthy(Get(h.credentials, "password")))
    ensures t.Some? ==> t.value == (h.credentials["username"], h.credentials["password"])
  {
    if h.authType == Some(Basic) then
      var username := Get(h.credentials, "username");
      var password := Get(h.credentials, "password");
      if Truthy(username) && Truthy(password) then Some((username.value, password.value)) else None
    else None
  }

  /** `is_configured`: a type is set and some credential is stored. */
  predicate IsConfigured(h: AuthHandler) {
    h.authType.Some? && |h.credentials| > 0
  }

  /** A fresh handler is not configured; every successful setter configures
      it; and since setters only set the type and add credentials, a
      configured handler stays configured whatever a later setter does,
      even when it raises. */
  lemma ConfiguredSurvivesSetters(h: AuthHandler, secret: Option<string>, envName: Option<string>,
                                  headerName: string, username: string, password: string, env: Env)
    ensures !IsConfigured(Unconfigured)
    ensures SetBearerToken(h, secret, envName, env).error.None? ==> IsConfigured(SetBearerToken(h, secret, envName, env).handler)
    ensures IsConfigured(SetApiKey(h, secret, envName, headerName, env).handler)
    ensures IsConfigured(SetBasicAuth(h, username, password))
    ensures IsConfigured(h) ==> IsConfigured(SetBearerToken(h, secret, envName, env).handler)
  {
    var b := SetBearerToken(h, secret, envName, env).handler;
    if IsConfigured(h) {
      var k :| k in h.credentials;
      assert k in b.credentials;
    }
    var a := SetApiKey(h, secret, envName, headerName, env).handler;
    assert "header_name" in a.credentials;
    var c := SetBasicAuth(h, username, password);
    assert "username" in c.credentials;
  }

  /** What a successful setter yields when asked for headers: the bearer token
      behind "Bearer ", the API key under its header name, and for Basic no
      header but the (username, password) tuple exactly when both are non-empty. */
  lemma SettersRoundTrip(h: AuthHandler, secret: string, headerName: string, username: string, password: string, env: Env)
    requires secret != ""
    ensures var r := SetBearerToken(h, Some(secret), None, env);
      r.error.None? && IsConfigured(r.handler) &&
      GetAuthHeaders(r.handler) == map["Authorization" := "Bearer " + secret]
    ensures var r := SetApiKey(h, Some(secret), None, headerName, env);
      r.error.None? && IsConfigured(r.handler) &&
      GetAuthHeaders(r.handler) == map[headerName := secret]
    ensures var b := SetBasicAuth(h, username, password);
      IsConfigured(b) && GetAuthHeaders(b) == map[] &&
      (GetBasicAuthTuple(b) == Some((username, password)) <==> username != "" && password != "") &&
      (GetBasicAuthTuple(b).None? <==> username == "" || password == "")
  {
  }

  /** A token read from the environment is used exactly as found there. */
  lemma BearerFromEnvironment(h: AuthHandler, name: string, env: Env)
    requires name != "" && name in env && env[name] != ""
    ensures var r := SetBearerToken(h, None, Some(name), env);
      r.error.None? && GetAuthHeaders(r.handler) == map["Authorization" := "Bearer " + env[name]]
  {
  }

  /** A failed `set_api_key` still leaves the handler "configured", because the
      header name was stored before the failure, while its header carries an
      empty key unless one was stored earlier. */
  lemma FailedApiKeyLooksConfigured(h: AuthHandler, keyEnv: Option<string>, headerName: string, env: Env)
    requires !(Truthy(keyEnv) && Truthy(Get(env, keyEnv.value)))
    ensures var r := SetApiKey(h, None, keyEnv, headerName, env);
      r.error.Some? && IsConfigured(r.handler) &&
      ("api_key" !in h.credentials ==> GetAuthHeaders(r.handler) == map[headerName := ""])
  {
  }

  /** A failed `set_bearer_token` on a fresh handler leaves it unconfigured but
      typed bearer; its headers would carry "Bearer " with an empty token. */
  lemma FailedBearerOnFreshHandler(tokenEnv: Option<string>, env: Env)
    requires !(Truthy(tokenEnv) && Truthy(Get(env, tokenEnv.value)))
    ensures var r := SetBearerToken(Unconfigured, None, tokenEnv, env);
      r.error.Some? && r.handler.authType == Some(Bearer) && !IsConfigured(r.handler) &&
      GetAuthHeaders(r.handler) == map["Authorization" := "Bearer "]
  {
    assert "Bearer " + "" == "Bearer ";
  }

  /** Switching type keeps the other method's credentials: after bearer then
      basic, the token is still stored. */
  lemma SwitchingKeepsCredentials(h: AuthHandler, token: string, username: string, password: string, env: Env)
    requires token != ""
    ensures var b := SetBasicAuth(SetBearerToken(h, Some(token), None, env).handler, username, password);
      "token" in b.credentials && b.credentials["token"] == token && b.authType == Some(Basic)
  {
  }

  /** The handler kind a (lower-cased) configuration type names, if any. */
  function KindNamed(t: string): Option<AuthKind> {
    if t == "bearer" then Some(Bearer)
    else if t == "api_key" then Some(ApiKey)
    else if t == "basic" then Some(Basic)
    else None
  }

  /** The type a configuration asks for, matched without regard to case. */
  function ConfigType(config: map<string, string>): string {
    Lower(GetOrDefault(config, "type", ""))
  }

  /** `create_auth_from_config`. */
  function CreateAuthFromConfig(config: map<string, string>, env: Env): (r: Option<AuthHandler>)
    ensures config == map[] ==> r.None?
    ensures KindNamed(ConfigType(config)).None? ==> r.None?
    ensures r.Some? ==> r.value.authType == KindNamed(ConfigType(config))
    ensures r.Some? ==> IsConfigured(r.value)
    ensures config != map[] && KindNamed(ConfigType(config)) == Some(Basic) ==> r.Some?
    ensures config != map[] && KindNamed(ConfigType(config)) == Some(Bearer) ==>
      (r.Some? <==> ResolveSecret(Get(config, "token"), Get(config, "token_env"), env).Some?)
    ensures config != map[] && KindNamed(ConfigType(config)) == Some(ApiKey) ==>
      (r.Some? <==> ResolveSecret(Get(config, "api_key"), Get(config, "key_env"), env).Some?)
    ensures r.Some? && r.value.authType == Some(Bearer) ==>
      r.value.credentials == map["token" := ResolveSecret(Get(config, "token"), Get(config, "token_env"), env).value]
    ensures r.Some? && r.value.authType == Some(ApiKey) ==>
      r.value.credentials == map["header_name" := GetOrDefault(config, "header_name", DefaultApiKeyHeader),
                                 "api_key" := ResolveSecret(Get(config, "api_key"), Get(config, "key_env"), env).value]
    ensures r.Some? && r.value.authType == Some(Basic) ==>
      r.value.credentials == map["username" := GetOrDefault(config, "username", ""),
                                 "password" := GetOrDefault(config, "password", "")]
  {
    if config == map[] then None
    else
      var kind := KindNamed(ConfigType(config));
      match kind
      case None => None
      case Some(Bearer) =>
        var s := SetBearerToken(Unconfigured, Get(config, "token"), Get(config, "token_env"), env);
        if s.error.Some? then None else Some(s.handler)
      case Some(ApiKey) =>
        var s := SetApiKey(Unconfigured, Get(config, "api_key"), Get(config, "key_env"),
                           GetOrDefault(config, "header_name", DefaultApiKeyHeader), env);
        if s.error.Some? then None else Some(s.handler)
      case Some(Basic) =>
        Some(SetBasicAuth(Unconfigured, GetOrDefault(config, "username", ""), GetOrDefault(config, "password", "")))
  }

  /** What a handler built from a configuration sends: the bearer header
      carries the resolved token, the api_key header sits under the
      configured name (or "X-API-Key") and carries the resolved key, and a
      basic handler sends no header and passes the configured pair when both
      parts are non-empty. */
  lemma CreatedHandlerSends(config: map<string, string>, env: Env)
    ensures var r := CreateAuthFromConfig(config, env);
      r.Some? && r.value.authType == Some(Bearer) ==>
        GetAuthHeaders(r.value) ==
          map["Authorization" := "Bearer " + ResolveSecret(Get(config, "token"), Get(config, "token_env"), env).value]
    ensures var r := CreateAuthFromConfig(config, env);
      r.Some? && r.value.authType == Some(ApiKey) ==>
        GetAuthHeaders(r.value) ==
          map[GetOrDefault(config, "header_name", DefaultApiKeyHeader) :=
                ResolveSecret(Get(config, "api_key"), Get(config, "key_env"), env).value]
    ensures var r := CreateAuthFromConfig(config, env);
      r.Some? && r.value.authType == Some(Basic) ==>
        GetAuthHeaders(r.value) == map[] &&
        (GetBasicAuthTuple(r.value).Some? <==>
           GetOrDefault(config, "username", "") != "" && GetOrDefault(config, "password", "") != "") &&
        (GetBasicAuthTuple(r.value).Some? ==>
           GetBasicAuthTuple(r.value).value == (GetOrDefault(config, "username", ""), GetOrDefault(config, "password", "")))
  {
    var r := CreateAuthFromConfig(config, env);
    if r.Some? && r.value.authType == Some(Basic) {
      assert "username" in r.value.credentials && "password" in r.value.credentials;
    }
  }

  /** The type is matched case-insensitively: "Bearer", "BEARER" and "bearer"
      build the same handler. */
  lemma CreateAuthIgnoresTypeCase(config: map<string, string>, env: Env)
    requires "type" in config
    ensures CreateAuthFromConfig(config["type" := Upper(config["type"])], env) == CreateAuthFromConfig(config, env)
  {
    var upper := config["type" := Upper(config["type"])];
    LowerIgnoresCase(config["type"]);
    assert ConfigType(upper) == ConfigType(config);
    forall key | key != "type"
      ensures Get(upper, key) == Get(config, key)
    {
    }
    CreateAuthReadsOnly(upper, config, env);
  }

  /** Besides the (lower-cased) type, the result depends only on the other
      keys' values. */
  lemma CreateAuthReadsOnly(a: map<string, string>, b: map<string, string>, env: Env)
    requires (a == map[]) == (b == map[]) && ConfigType(a) == ConfigType(b)
    requires forall key :: key != "type" ==> Get(a, key) == Get(b, key)
    ensures CreateAuthFromConfig(a, env) == CreateAuthFromConfig(b, env)
  {
    assert Get(a, "token") == Get(b, "token") && Get(a, "token_env") == Get(b, "token_env");
    assert Get(a, "api_key") == Get(b, "api_key") && Get(a, "key_env") == Get(b, "key_env");
    assert Get(a, "header_name") == Get(b, "header_name");
    assert Get(a, "username") == Get(b, "username") && Get(a, "password") == Get(b, "password");
  }
}
