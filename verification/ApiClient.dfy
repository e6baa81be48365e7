/** The pure decisions of the axios client (`client.js`): the request interceptor, the
    success unwrap, the routing of a failed call, the failure-toast rule, reading the refresh
    reply, and the retry configuration. The stateful part (the refresh flag, the waiter queue
    and the per-request life cycle) is in `Coordinator`. */
module ApiClient {
  import opened Base
  import opened Json
  import opened AuthStorage
  import opened ErrorMapper

  /** A request configuration: the call itself (`target`: method, URL and body, opaque
      here), the `Authorization` and `Accept-Language` headers, and the flags `_retry`,
      `_skipAuthRefresh` and `suppressToast` (absent flags are false). */
  datatype Config = Config(target: string, authorization: Option<string>, language: Option<string>,
                           retry: bool, skipAuthRefresh: bool, suppressToast: bool)

  /** `config.headers.Authorization` is truthy. */
  predicate HasAuthorization(cfg: Config) {
    cfg.authorization.Some? && cfg.authorization.value != ""
  }

  /** The header value `Bearer ${token}`. */
  function Bearer(token: Json): string {
    "Bearer " + ToJsString(token)
  }

  /** The request interceptor's result: the store after its reads, and the outgoing config. */
  datatype Prepared = Prepared(store: Store, config: Config)

  /** The request interceptor: adds `Bearer <access token>` when a token exists and the
      caller set no `Authorization` of its own, and always sets the preferred language. */
  function RequestInterceptor(c: Codec, s: Store, cfg: Config): (r: Prepared)
    ensures var token := GetAccessToken(c, s).value;
      && (HasAuthorization(cfg) || !Truthy(token) ==> r.config.authorization == cfg.authorization)
      && (!HasAuthorization(cfg) && Truthy(token) ==> r.config.authorization == Some(Bearer(token)))
    ensures r.config.language == Some(GetPreferredLanguage(s))
    ensures r.config.(authorization := cfg.authorization, language := cfg.language) == cfg
    ensures r.store == GetTokens(c, s).store
  {
    var read := GetAccessToken(c, s);
    var cfg1 := if Truthy(read.value) && !HasAuthorization(cfg)
                then cfg.(authorization := Some(Bearer(read.value))) else cfg;
    var lang := GetPreferredLanguage(read.store);
    Prepared(read.store, if lang != "" then cfg1.(language := Some(lang)) else cfg1)
  }

  /** What the success interceptor hands the caller. `Payload(JNull)` is a `null` body. */
  datatype Unwrapped = Payload(value: Json) | Undefined | WholeResponse(response: Response)

  /** The success interceptor. */
  function Unwrap(resp: Response): Unwrapped {
    if GetOpt(resp.data, "data").Some? then Payload(GetOpt(resp.data, "data").value)
    else if resp.data.Some? then Payload(resp.data.value)
    else if resp.status == 204 then Undefined
    else WholeResponse(resp)
  }

  /** Unwrap precedence: the envelope's `data` when defined (even `null`), else the body when
      defined, else `undefined` for 204, else the raw response. */
  lemma UnwrapPrecedence(resp: Response)
    ensures resp.data.Some? && Get(resp.data.value, "data").Some? ==>
      Unwrap(resp) == Payload(Get(resp.data.value, "data").value)
    ensures resp.data.Some? && Get(resp.data.value, "data").None? ==> Unwrap(resp) == Payload(resp.data.value)
    ensures resp.data.None? && resp.status == 204 ==> Unwrap(resp).Undefined?
    ensures resp.data.None? && resp.status != 204 ==> Unwrap(resp) == WholeResponse(resp)
  {
  }

  /** A standard success envelope `{success: true, data: p}` unwraps to `p`. */
  lemma UnwrapEnvelope(p: Json, status: int)
    ensures Unwrap(Response(status, Some(JObj([Member("success", JBool(true)), Member("data", p)])))) == Payload(p)
  {
    var ms := [Member("success", JBool(true)), Member("data", p)];
    assert ms[..|ms| - 1] == [Member("success", JBool(true))];
  }

  /** Where the error interceptor sends a failed call. */
  datatype Route = NoResponse | RefreshPath | Terminal

  function RouteOf(e: ApiError, cfg: Config): Route {
    if e.response.None? then NoResponse
    else if e.response.value.status == 401 && !cfg.retry && !cfg.skipAuthRefresh then RefreshPath
    else Terminal
  }

  /** The refresh path is taken exactly for a 401 on a request that is neither a replay nor
      opted out of refreshing. */
  lemma RefreshPathExactly(e: ApiError, cfg: Config)
    ensures RouteOf(e, cfg) == RefreshPath <==>
      e.response.Some? && e.response.value.status == 401 && !cfg.retry && !cfg.skipAuthRefresh
  {
  }

  /** Whether a terminal failure shows the generic toast: not suppressed, and no status (or 0)
      or a status of at least 500. */
  predicate ToastOnTerminal(cfg: Config, m: Mapped) {
    !cfg.suppressToast && (m.status.None? || m.status.value == 0 || m.status.value >= 500)
  }

  /** A terminal 4xx never toasts, and neither does a suppressed call. */
  lemma NoToastFor4xx(cfg: Config, e: ApiError)
    requires e.response.Some?
    ensures var m := MapApiError(e);
      (400 <= e.response.value.status < 500 || cfg.suppressToast) ==> !ToastOnTerminal(cfg, m)
    ensures var m := MapApiError(e);
      e.response.value.status >= 500 && !cfg.suppressToast ==> ToastOnTerminal(cfg, m)
  {
  }

  /** The tokens record and access token of a refresh reply whose body is `response.data`,
      when `response.data?.data?.access_token` is truthy. */
  function RefreshedTokens(body: JsValue): (r: Option<(Json, Json)>)
    ensures r.Some? ==> Truthy(r.value.1) && Get(r.value.0, "access_token") == Some(r.value.1)
    ensures r.Some? ==> GetOpt(body, "data") == Some(r.value.0)
    ensures r.None? ==> !TruthyJs(GetOpt(GetOpt(body, "data"), "access_token"))
  {
    var tokens := GetOpt(body, "data");
    var access := GetOpt(tokens, "access_token");
    if TruthyJs(access) then Some((tokens.value, access.value)) else None
  }

  /** The error `refreshAccessToken` throws for a reply without an access token. */
  const InvalidRefreshResponse: ApiError := ApiError(None, Some("Invalid refresh response"), None)

  /** The configuration a replay is sent with: the original call with the new bearer token
      and `_retry` set. */
  function RetryConfig(cfg: Config, token: Json): (r: Config)
    ensures r.retry && r.authorization == Some(Bearer(token)) && HasAuthorization(r)
    ensures r.target == cfg.target && r.skipAuthRefresh == cfg.skipAuthRefresh
    ensures r.suppressToast == cfg.suppressToast && r.language == cfg.language
  {
    cfg.(authorization := Some(Bearer(token)), retry := true)
  }

  /** The interceptor leaves the bearer header of a replay as it is: the replay reaches the
      network with the refreshed token even if the store changed meanwhile. */
  lemma ReplayKeepsBearer(c: Codec, s: Store, cfg: Config, token: Json)
    ensures var r := RequestInterceptor(c, s, RetryConfig(cfg, token)).config;
      r.retry && r.authorization == Some(Bearer(token)) && r.target == cfg.target
  {
  }
}
