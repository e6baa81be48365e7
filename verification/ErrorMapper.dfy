/** The error classifier (`mapApiError`): turns a failed call into an i18n message key, a
    message, the HTTP status and the backend's validation details. */
module ErrorMapper {
  import opened Base
  import opened Json
  import opened Text

  /** `error.response`: the HTTP status and the parsed body (`undefined` when absent). */
  datatype Response = Response(status: int, data: JsValue)

  /** A rejected call as the client sees it: the response if one arrived, `error.message`,
      and `error.code` (`'ECONNABORTED'` for a timeout). */
  datatype ApiError = ApiError(response: Option<Response>, message: Option<string>, code: Option<string>)

  /** `{messageKey, message, status?, details?}`; an absent member is None. */
  datatype Mapped = Mapped(messageKey: Json, message: JsValue, status: Option<int>, details: JsValue)

  const NetworkKey: string := "errors.network"
  const NetworkMessage: string := "Network error. Check your connection."
  const InvalidCredentialsKey: string := "errors.invalidCredentials"
  const UsernameExistsKey: string := "errors.usernameExists"
  const PhoneExistsKey: string := "errors.phoneExists"
  const GenericKey: string := "errors.generic"
  const ServerKey: string := "errors.server"

  /** `STATUS_KEY_MAP`. */
  function StatusKey(status: int): Option<string> {
    match status
    case 400 => Some("errors.badRequest")
    case 401 => Some("errors.unauthorized")
    case 403 => Some("errors.forbidden")
    case 404 => Some("errors.notFound")
    case 409 => Some("errors.conflict")
    case 422 => Some("errors.validation")
    case 429 => Some("errors.rateLimited")
    case 500 => Some(ServerKey)
    case 502 => Some(ServerKey)
    case 503 => Some(ServerKey)
    case 504 => Some(ServerKey)
    case _ => None
  }

  /** Only 500, 502, 503 and 504 are server errors; 501, 505 and the rest of 5xx are not in
      the table. */
  lemma ServerStatuses(status: int)
    ensures StatusKey(status) == Some(ServerKey) <==> status in {500, 502, 503, 504}
    ensures 500 <= status < 600 && status !in {500, 502, 503, 504} ==> StatusKey(status).None?
  {
  }

  /** `messageIncludes`: the message is a string that contains `search`, ignoring case.
      `toLowerCase` is taken on ASCII letters only; the searched phrases are ASCII. */
  predicate MessageIncludes(message: JsValue, search: string) {
    message.Some? && message.value.JStr? && Contains(LowerAscii(message.value.s), LowerAscii(search))
  }

  /** `data?.error ?? {}`. */
  function ErrorDetail(data: JsValue): Json {
    Coalesce(GetOpt(data, "error"), JObj([]))
  }

  /** `errorDetail.message || error.message`. */
  function BackendMessage(e: ApiError, detail: Json): JsValue {
    Or(Get(detail, "message"), if e.message.Some? then Some(JStr(e.message.value)) else None)
  }

  /** `STATUS_KEY_MAP[status] || errorDetail.code || 'errors.generic'`. */
  function DefaultKey(status: int, detail: Json): Json {
    if StatusKey(status).Some? then JStr(StatusKey(status).value)
    else if TruthyJs(Get(detail, "code")) then Get(detail, "code").value
    else JStr(GenericKey)
  }

  function MapApiError(e: ApiError): (r: Mapped)
    ensures e.response.None? <==> r.status.None?
    ensures e.response.Some? ==> r.status == Some(e.response.value.status)
    ensures r.details.Some? ==> e.response.Some?
  {
    if e.response.None? then
      Mapped(JStr(NetworkKey), Some(JStr(NetworkMessage)), None, None)
    else
      var status := e.response.value.status;
      var detail := ErrorDetail(e.response.value.data);
      var message := BackendMessage(e, detail);
      if status == 401 && MessageIncludes(message, "incorrect username or password") then
        Mapped(JStr(InvalidCredentialsKey), message, Some(status), None)
      else if status == 409 && MessageIncludes(message, "username already exists") then
        Mapped(JStr(UsernameExistsKey), message, Some(status), None)
      else if status == 409 && MessageIncludes(message, "phone number is already in use") then
        Mapped(JStr(PhoneExistsKey), message, Some(status), None)
      else
        Mapped(DefaultKey(status, detail), message, Some(status), Get(detail, "details"))
  }

  /** No response: the network key with the fixed message, and no status or details. */
  lemma NoResponseIsNetwork(e: ApiError)
    requires e.response.None?
    ensures MapApiError(e) == Mapped(JStr(NetworkKey), Some(JStr(NetworkMessage)), None, None)
  {
  }

  /** A 401 whose message mentions "incorrect username or password" in any letter case is
      reported as invalid credentials, with the status and without details. */
  lemma InvalidCredentials(status: int, data: JsValue, message: Option<string>, code: Option<string>, backend: string)
    requires status == 401
    requires Get(ErrorDetail(data), "message") == Some(JStr(backend))
    requires backend != "" && Contains(LowerAscii(backend), "incorrect username or password")
    ensures MapApiError(ApiError(Some(Response(status, data)), message, code))
         == Mapped(JStr(InvalidCredentialsKey), Some(JStr(backend)), Some(401), None)
  {
    assert LowerAscii("incorrect username or password") == "incorrect username or password";
  }

  /** A 409 that matches both phrases is reported as a username clash: that test comes first. */
  lemma ConflictUsernameFirst(e: ApiError)
    requires e.response.Some? && e.response.value.status == 409
    requires MessageIncludes(BackendMessage(e, ErrorDetail(e.response.value.data)), "username already exists")
    ensures MapApiError(e) == Mapped(JStr(UsernameExistsKey),
                                     BackendMessage(e, ErrorDetail(e.response.value.data)), Some(409), None)
  {
  }

  /** A 409 mentioning the phone (and not the username) is reported as a phone clash, with the
      backend message and the status but no details. */
  lemma ConflictPhone(e: ApiError)
    requires e.response.Some? && e.response.value.status == 409
    requires var m := BackendMessage(e, ErrorDetail(e.response.value.data));
      !MessageIncludes(m, "username already exists") && MessageIncludes(m, "phone number is already in use")
    ensures MapApiError(e) == Mapped(JStr(PhoneExistsKey),
                                     BackendMessage(e, ErrorDetail(e.response.value.data)), Some(409), None)
  {
  }

  /** Statuses other than 401 and 409 always take the default path: the table key, else the
      body's `error.code` when truthy, else the generic key; the backend message (or
      `error.message`); and the body's details unchanged. */
  lemma OtherStatusesTakeDefault(e: ApiError)
    requires e.response.Some? && e.response.value.status != 401 && e.response.value.status != 409
    ensures var status := e.response.value.status;
      var detail := ErrorDetail(e.response.value.data);
      var code := Get(detail, "code");
      var r := MapApiError(e);
      && (StatusKey(status).Some? ==> r.messageKey == JStr(StatusKey(status).value))
      && (StatusKey(status).None? && TruthyJs(code) ==> r.messageKey == code.value)
      && (StatusKey(status).None? && !TruthyJs(code) ==> r.messageKey == JStr(GenericKey))
      && r.details == Get(detail, "details")
      && r.message == BackendMessage(e, detail)
  {
  }

  /** Refinement only narrows the table's key: a 401 is either invalid credentials or
      unauthorized, a 409 one of the two clashes or a conflict. */
  lemma RefinementNarrows(e: ApiError)
    requires e.response.Some?
    ensures e.response.value.status == 401 ==>
      MapApiError(e).messageKey in {JStr(InvalidCredentialsKey), JStr("errors.unauthorized")}
    ensures e.response.value.status == 409 ==>
      MapApiError(e).messageKey in {JStr(UsernameExistsKey), JStr(PhoneExistsKey), JStr("errors.conflict")}
  {
  }

  /** The message is the backend's `error.message` when truthy, otherwise `error.message`
      of the failure itself. */
  lemma MessageFallback(e: ApiError)
    requires e.response.Some?
    ensures var detail := ErrorDetail(e.response.value.data);
      var bm := Get(detail, "message");
      && (TruthyJs(bm) ==> MapApiError(e).message == bm)
      && (!TruthyJs(bm) && e.message.Some? ==> MapApiError(e).message == Some(JStr(e.message.value)))
      && (!TruthyJs(bm) && e.message.None? ==> MapApiError(e).message.None?)
  {
  }
}
