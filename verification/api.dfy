/** src/services/api.ts: the status toggle of `togglePipelineSchedule` with the
    request it sends, and the request interceptor that attaches the session
    token. The HTTP client itself is not modelled. */
module Api {
  import opened Wrappers
  import opened Text
  import opened TokenManager

  // ---------------------------------------------------------------------------
  // togglePipelineSchedule

  /** Only exactly "active" turns into "inactive"; every other status,
      including "" and "inactive", turns into "active". */
  function ToggleStatus(current: string): (r: string)
    ensures r == "inactive" <==> current == "active"
    ensures r == "active" <==> current != "active"
  {
    if current == "active" then "inactive" else "active"
  }

  /** Toggling twice gives back "active" or "inactive"; any other status ends
      up "inactive". */
  lemma ToggleTwice(current: string)
    ensures current == "active" || current == "inactive" <==> ToggleStatus(ToggleStatus(current)) == current
    ensures ToggleStatus(ToggleStatus(current)) == "inactive" <==> current != "active"
  {
  }

  /** The `pipeline_schedule` object of the request body. */
  datatype ScheduleUpdate = ScheduleUpdate(id: string, status: string)

  /** The PUT request `togglePipelineSchedule` sends. */
  datatype TogglePut = TogglePut(path: string, body: ScheduleUpdate)

  /** The request toggling a schedule: addressed to the schedule, carrying its
      id and the toggled status. */
  function ToggleRequest(scheduleId: string, currentStatus: string): (r: TogglePut)
    ensures r.path == "/pipeline_schedules/" + scheduleId
    ensures r.body.id == scheduleId
    ensures r.body.status != currentStatus || currentStatus !in {"active", "inactive"}
    ensures r.body.status == "inactive" <==> currentStatus == "active"
    ensures currentStatus != "active" ==> r.body.status == "active"
  {
    TogglePut("/pipeline_schedules/" + scheduleId, ScheduleUpdate(scheduleId, ToggleStatus(currentStatus)))
  }

  // ---------------------------------------------------------------------------
  // The request interceptor

  const OAuthHeader := "OAUTH-TOKEN"
  const SessionsPath := "/sessions"

  /** The parts of a request configuration the interceptor can see. */
  datatype RequestConfig = RequestConfig(url: Option<string>, verb: string,
                                         headers: map<string, string>, params: map<string, string>)

  /** `config.url?.includes('/sessions')`: a missing URL is not a sessions request. */
  predicate IsSessionsRequest(config: RequestConfig) {
    config.url.Some? && Contains(config.url.value, SessionsPath)
  }

  /** The interceptor's result, and the store `getToken` leaves behind. */
  datatype Intercepted = Intercepted(config: RequestConfig, store: Store)

  /** The header value the interceptor would attach: the stored token must be
      present and non-empty, and `decodeToken` of it (the parameter `decode`,
      `None` for null) must give a non-empty value. */
  function HeaderValue(lookup: Option<string>, decode: string -> Option<string>): Option<string> {
    match lookup
    case None => None
    case Some(token) =>
      if token == "" then None
      else match decode(token)
        case None => None
        case Some(v) => if v == "" then None else Some(v)
  }

  /** The request interceptor at instant `now`. A request to "/sessions" is
      passed on untouched and the store is not read. Any other request reads
      the token (which may evict an expired one) and gets the OAUTH-TOKEN
      header only when a decoded value is at hand; nothing else in the
      configuration changes. */
  function InterceptRequest(config: RequestConfig, store: Store, now: int,
                            decode: string -> Option<string>): (r: Intercepted)
    ensures IsSessionsRequest(config) ==> r == Intercepted(config, store)
    ensures !IsSessionsRequest(config) ==> r.store == GetToken(store, now).store
    ensures r.config.url == config.url && r.config.verb == config.verb
    ensures r.config.params == config.params
    ensures forall h :: h != OAuthHeader ==>
      (h in r.config.headers <==> h in config.headers)
      && (h in r.config.headers ==> r.config.headers[h] == config.headers[h])
    ensures OAuthHeader in r.config.headers && (OAuthHeader !in config.headers
                                                || r.config.headers[OAuthHeader] != config.headers[OAuthHeader])
      ==> && !IsSessionsRequest(config)
          && IsTokenValid(store, now)
          && decode(store[TokenKey].token) == Some(r.config.headers[OAuthHeader])
  {
    if IsSessionsRequest(config) then Intercepted(config, store)
    else
      var lookup := GetToken(store, now);
      match HeaderValue(lookup.token, decode)
      case None => Intercepted(config, lookup.store)
      case Some(v) => Intercepted(config.(headers := config.headers[OAuthHeader := v]), lookup.store)
  }

  /** The header is set exactly when the request is not a sessions request,
      the stored token is valid and non-empty, and it decodes to a non-empty
      value, which is then the header. */
  lemma HeaderSetIff(config: RequestConfig, store: Store, now: int, decode: string -> Option<string>)
    ensures var r := InterceptRequest(config, store, now, decode);
      && (r.config.headers == config.headers[OAuthHeader := HeaderValue(GetToken(store, now).token, decode).value]
          <== !IsSessionsRequest(config) && HeaderValue(GetToken(store, now).token, decode).Some?)
      && (r.config == config
          <== IsSessionsRequest(config) || HeaderValue(GetToken(store, now).token, decode).None?)
      && (HeaderValue(GetToken(store, now).token, decode).Some? ==>
            IsTokenValid(store, now) && store[TokenKey].token != "")
  {
  }
}
