/** The gateway's error type, its broad categories and the HTTP status each
    category is answered with (`src/error.rs`). */
module Errors {
  import opened Bytes
  import opened Ints
  import Util

  datatype CanonicalError =
    | Config(text: bytes)
    | Auth(text: bytes)
    | InvalidRequest(text: bytes)
    | Upstream(status: u16, message: bytes)
    | Transport(text: bytes)
    | Translation(text: bytes)
    | FcParse(text: bytes)
    | Internal(text: bytes)

  datatype ErrorCategory = InvalidRequestCategory | Authentication | Permission | RateLimit | ServerError | Unknown

  /** The `Display` text of an error: a fixed prefix per variant, and for an
      upstream error its status in decimal and its message. */
  function DisplayText(err: CanonicalError): (m: bytes)
    ensures err.Upstream? ==> StartsWith(m, "Upstream error: status=") && EndsWith(m, err.message)
    ensures !err.Upstream? ==> EndsWith(m, err.text)
  {
    match err
    case Config(t) => "Config error: " + t
    case Auth(t) => "Auth error: " + t
    case InvalidRequest(t) => "Invalid request: " + t
    case Upstream(status, message) => "Upstream error: status=" + Util.Decimal(status) + ", message=" + message
    case Transport(t) => "Transport error: " + t
    case Translation(t) => "Protocol translation error: " + t
    case FcParse(t) => "FC parse error: " + t
    case Internal(t) => "Internal error: " + t
  }

  /** The four client-side statuses keep their own category; every 5xx is a
      server error; any other status is unknown. */
  function CategoryFromUpstreamStatus(status: u16): (c: ErrorCategory)
    ensures c == ServerError <==> 500 <= status <= 599
    ensures c == Unknown <==> status !in {400, 401, 403, 429} && !(500 <= status <= 599)
    ensures c == InvalidRequestCategory <==> status == 400
    ensures c == Authentication <==> status == 401
    ensures c == Permission <==> status == 403
    ensures c == RateLimit <==> status == 429
  {
    if status == 400 then InvalidRequestCategory
    else if status == 401 then Authentication
    else if status == 403 then Permission
    else if status == 429 then RateLimit
    else if 500 <= status <= 599 then ServerError
    else Unknown
  }

  /** Errors raised inside the gateway are the client's fault only when the
      request was invalid or unauthenticated; everything else is a server
      error. Only an upstream error can be Permission, RateLimit or Unknown. */
  function Category(err: CanonicalError): (c: ErrorCategory)
    ensures err.Upstream? ==> c == CategoryFromUpstreamStatus(err.status)
    ensures err.Auth? ==> c == Authentication
    ensures err.InvalidRequest? ==> c == InvalidRequestCategory
    ensures !err.Upstream? && !err.Auth? && !err.InvalidRequest? ==> c == ServerError
  {
    match err
    case InvalidRequest(_) => InvalidRequestCategory
    case Auth(_) => Authentication
    case Upstream(status, _) => CategoryFromUpstreamStatus(status)
    case _ => ServerError
  }

  /** 400/401/403/429 for the client-side categories, 500 otherwise. */
  function HttpStatusForCategory(cat: ErrorCategory): (status: u16)
    ensures status in {400, 401, 403, 429, 500}
    ensures status == 500 <==> cat == ServerError || cat == Unknown
  {
    match cat
    case InvalidRequestCategory => 400
    case Authentication => 401
    case Permission => 403
    case RateLimit => 429
    case ServerError => 500
    case Unknown => 500
  }

  /** An upstream 400, 401, 403 or 429 is passed on to the client as the
      same status; any 5xx becomes 500, and so does every other status. */
  lemma {:induction false} UpstreamStatusPassThrough(status: u16)
    ensures status in {400, 401, 403, 429} ==>
              HttpStatusForCategory(Category(Upstream(status, []))) == status
    ensures status !in {400, 401, 403, 429} ==>
              HttpStatusForCategory(Category(Upstream(status, []))) == 500
  {
    var c := CategoryFromUpstreamStatus(status);
    if status !in {400, 401, 403, 429} {
      assert c == ServerError || c == Unknown;
    }
  }

  /** The status separates the client-side categories from one another. */
  lemma HttpStatusSeparatesClientCategories(a: ErrorCategory, b: ErrorCategory)
    requires HttpStatusForCategory(a) == HttpStatusForCategory(b)
    ensures a == b || (HttpStatusForCategory(a) == 500 && (a == ServerError || a == Unknown) && (b == ServerError || b == Unknown))
  {
  }
}

/** The error bodies each client API expects (`src/protocol/error_shapes.rs`). */
module ErrorShapes {
  import opened Bytes
  import opened Ints
  import opened Wrappers
  import opened JsonValue
  import opened Errors

  function OpenAiErrorType(cat: ErrorCategory): bytes {
    match cat
    case InvalidRequestCategory => "invalid_request_error"
    case Authentication => "authentication_error"
    case Permission => "permission_error"
    case RateLimit => "rate_limit_error"
    case ServerError => "server_error"
    case Unknown => "server_error"
  }

  function OpenAiErrorCode(cat: ErrorCategory): bytes {
    match cat
    case InvalidRequestCategory => "invalid_request"
    case Authentication => "invalid_api_key"
    case Permission => "permission_denied"
    case RateLimit => "rate_limit_exceeded"
    case ServerError => "server_error"
    case Unknown => "server_error"
  }

  function AnthropicErrorType(cat: ErrorCategory): bytes {
    match cat
    case InvalidRequestCategory => "invalid_request_error"
    case Authentication => "authentication_error"
    case Permission => "authentication_error"
    case RateLimit => "rate_limit_error"
    case ServerError => "api_error"
    case Unknown => "api_error"
  }

  function GeminiErrorStatus(cat: ErrorCategory): bytes {
    match cat
    case InvalidRequestCategory => "INVALID_ARGUMENT"
    case Authentication => "UNAUTHENTICATED"
    case Permission => "PERMISSION_DENIED"
    case RateLimit => "RESOURCE_EXHAUSTED"
    case ServerError => "INTERNAL"
    case Unknown => "INTERNAL"
  }

  /** The server-side categories are the only two no body tells apart. */
  predicate ServerSide(cat: ErrorCategory) { cat == ServerError || cat == Unknown }

  /** OpenAI's type and code each identify the category, except that the
      two server-side categories share "server_error"; both tables agree on
      which categories they merge. */
  lemma OpenAiTypeCodeOneToOne(a: ErrorCategory, b: ErrorCategory)
    ensures OpenAiErrorType(a) == OpenAiErrorType(b) <==> a == b || (ServerSide(a) && ServerSide(b))
    ensures OpenAiErrorCode(a) == OpenAiErrorCode(b) <==> OpenAiErrorType(a) == OpenAiErrorType(b)
  {
  }

  /** Anthropic additionally merges Authentication and Permission. */
  lemma AnthropicTypeMerges(a: ErrorCategory, b: ErrorCategory)
    ensures AnthropicErrorType(a) == AnthropicErrorType(b) <==>
              a == b || (ServerSide(a) && ServerSide(b)) ||
              ({a, b} == {Authentication, Permission})
  {
  }

  /** Gemini's status names separate the same categories as OpenAI's types. */
  lemma GeminiStatusOneToOne(a: ErrorCategory, b: ErrorCategory)
    ensures GeminiErrorStatus(a) == GeminiErrorStatus(b) <==> a == b || (ServerSide(a) && ServerSide(b))
  {
  }

  /** `{"error": {"message", "type", "code", "param": null}}`, for any
      message, type and code. */
  function OpenAiErrorBody(message: bytes, errorType: bytes, code: bytes): (j: Json)
    ensures Get(j, "error").Some?
    ensures var e := Get(j, "error").value;
      && Get(e, "message") == Some(Str(message))
      && Get(e, "type") == Some(Str(errorType))
      && Get(e, "code") == Some(Str(code))
      && Get(e, "param") == Some(Null)
  {
    var inner := [("message", Str(message)), ("type", Str(errorType)), ("code", Str(code)), ("param", Null)];
    assert "type"[0] == 't' && "code"[0] == 'c' && "param"[0] == 'p' && "message"[0] == 'm';
    LookupAt(inner, 1);
    LookupAt(inner, 2);
    LookupAt(inner, 3);
    Object([("error", Object(inner))])
  }

  /** The OpenAI error body for a category. */
  function OpenAiErrorPayload(cat: ErrorCategory, message: bytes): (j: Json)
    ensures Get(j, "error").Some?
    ensures var e := Get(j, "error").value;
      && Get(e, "message") == Some(Str(message))
      && Get(e, "type") == Some(Str(OpenAiErrorType(cat)))
      && Get(e, "code") == Some(Str(OpenAiErrorCode(cat)))
      && Get(e, "param") == Some(Null)
  {
    OpenAiErrorBody(message, OpenAiErrorType(cat), OpenAiErrorCode(cat))
  }

  /** `{"type": "error", "error": {"type", "message"}}`. */
  function AnthropicErrorPayload(cat: ErrorCategory, message: bytes): (j: Json)
    ensures Get(j, "type") == Some(Str("error"))
    ensures Get(j, "error").Some?
    ensures var e := Get(j, "error").value;
      && Get(e, "type") == Some(Str(AnthropicErrorType(cat)))
      && Get(e, "message") == Some(Str(message))
  {
    var inner := [("type", Str(AnthropicErrorType(cat))), ("message", Str(message))];
    var outer := [("type", Str("error")), ("error", Object(inner))];
    assert inner[1..] == [("message", Str(message))];
    assert outer[1..] == [("error", Object(inner))];
    assert Lookup(inner, "message") == Some(Str(message));
    assert Lookup(outer, "error") == Some(Object(inner));
    Object(outer)
  }

  /** `{"error": {"code": <HTTP status>, "message", "status"}}`, for any
      status name. */
  function GeminiErrorBody(status: u16, message: bytes, statusName: bytes): (j: Json)
    ensures Get(j, "error").Some?
    ensures var e := Get(j, "error").value;
      && GetU64(e, "code") == Some(status)
      && Get(e, "message") == Some(Str(message))
      && Get(e, "status") == Some(Str(statusName))
  {
    var inner := [("code", Number(Int(status))), ("message", Str(message)), ("status", Str(statusName))];
    assert "code"[0] == 'c' && "message"[0] == 'm' && "status"[0] == 's';
    LookupAt(inner, 1);
    LookupAt(inner, 2);
    Object([("error", Object(inner))])
  }

  /** The Gemini error body for a category and HTTP status. */
  function GeminiErrorPayload(cat: ErrorCategory, status: u16, message: bytes): (j: Json)
    ensures Get(j, "error").Some?
    ensures var e := Get(j, "error").value;
      && GetU64(e, "code") == Some(status)
      && Get(e, "message") == Some(Str(message))
      && Get(e, "status") == Some(Str(GeminiErrorStatus(cat)))
  {
    GeminiErrorBody(status, message, GeminiErrorStatus(cat))
  }
}

/** `format_error`: the status and body an error is answered with, for the
    API the request came in on (`src/error.rs`). */
module ErrorResponse {
  import opened Bytes
  import opened Ints
  import opened Wrappers
  import opened JsonValue
  import opened Canonical
  import opened Errors
  import opened ErrorShapes

  function FormatError(err: CanonicalError, ingress: IngressApi): (r: (u16, Json))
    ensures r.0 == HttpStatusForCategory(Category(err))
    ensures Get(r.1, "error").Some?
    ensures ingress == Gemini ==> GetU64(Get(r.1, "error").value, "code") == Some(r.0)
  {
    var cat := Category(err);
    var status := HttpStatusForCategory(cat);
    var message := DisplayText(err);
    var body := match ingress
      case OpenAiChat => OpenAiErrorPayload(cat, message)
      case OpenAiResponses => OpenAiErrorPayload(cat, message)
      case Anthropic => AnthropicErrorPayload(cat, message)
      case Gemini => GeminiErrorPayload(cat, status, message);
    (status, body)
  }

  /** The status depends only on the error's category, never on the API it
      is reported through; every body carries the error's display text. */
  lemma FormatErrorStatusIgnoresIngress(err: CanonicalError, a: IngressApi, b: IngressApi)
    ensures FormatError(err, a).0 == FormatError(err, b).0
    ensures Get(FormatError(err, a).1, "error").Some?
    ensures Get(Get(FormatError(err, a).1, "error").value, "message") == Some(Str(DisplayText(err)))
  {
  }

  /** Both OpenAI APIs report errors in the same body. */
  lemma OpenAiIngressesAgree(err: CanonicalError)
    ensures FormatError(err, OpenAiChat) == FormatError(err, OpenAiResponses)
  {
  }
}
