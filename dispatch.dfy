/** Request dispatch by method and path (`src/routing/dispatch.rs`): the
    configured base path is normalised once, stripped from each request
    path, and the remainder picks an ingress handler. The handlers
    themselves and the body-size limit are not part of this model. */
module Dispatch {
  import opened Wrappers
  import opened Bytes

  datatype HttpMethod = Get | Post | OtherMethod(name: bytes)

  datatype RouteMatch =
    | Health
    | Models
    | OpenAiChat
    | OpenAiResponses
    | AnthropicMessages
    | Gemini(modelAction: bytes)
    | MethodNotAllowed
    | NotFound

  /** `trim_end_matches(b)`: drop every trailing `b`. */
  function TrimEndByte(s: bytes, b: byte): (r: bytes)
    ensures r <= s
    ensures |r| == 0 || r[|r| - 1] != b
    ensures forall k | |r| <= k < |s| :: s[k] == b
  {
    if |s| > 0 && s[|s| - 1] == b then TrimEndByte(s[..|s| - 1], b) else s
  }

  /** `normalize_base_path`, as written: trim, map "" and "/" to "", strip
      trailing slashes and make sure the result starts with one. */
  function NormalizeBasePath(basePath: bytes): (r: bytes)
    ensures Trim(basePath) == [] || Trim(basePath) == "/" ==> r == []
    ensures r == [] || (r[0] == '/' && r[|r| - 1] != '/')
  {
    var trimmed := Trim(basePath);
    if |trimmed| == 0 || trimmed == "/" then []
    else if trimmed[0] == '/' then TrimEndByte(trimmed, '/')
    else "/" + TrimEndByte(trimmed, '/')
  }

  /** Normalising as written is not idempotent: a space before the trailing
      slash survives the first pass and is trimmed by the second. */
  lemma NormalizeTwiceDiffers()
    ensures NormalizeBasePath("a /") == "/a "
    ensures NormalizeBasePath(NormalizeBasePath("a /")) == "/a"
  {
    assert Trim("a /") == "a /";
    assert TrimEndByte("a /", '/') == "a ";
    assert "/" + "a " == "/a ";
    assert TrimStart("/a ") == "/a ";
    assert TrimEnd("/a ") == "/a";
    assert TrimEndByte("/a", '/') == "/a";
  }

  predicate IsSlashOrWs(b: byte) { b == '/' || IsTrimWs(b) }

  /** Drop every trailing slash or whitespace byte. */
  function TrimEndSlashWs(s: bytes): (r: bytes)
    ensures r <= s
    ensures |r| == 0 || !IsSlashOrWs(r[|r| - 1])
  {
    if |s| > 0 && IsSlashOrWs(s[|s| - 1]) then TrimEndSlashWs(s[..|s| - 1]) else s
  }

  /** The normalisation the base path evidently calls for: after trimming,
      trailing slashes and any whitespace they uncover are removed
      together, so the result is a fixed point. */
  function NormalizeBasePathStable(basePath: bytes): (r: bytes)
    ensures Trim(basePath) == [] || Trim(basePath) == "/" ==> r == []
    ensures r == [] || (r[0] == '/' && !IsSlashOrWs(r[|r| - 1]))
  {
    var core := TrimEndSlashWs(Trim(basePath));
    if |core| == 0 then []
    else if core[0] == '/' then core
    else "/" + core
  }

  lemma TrimFixed(s: bytes)
    requires |s| > 0 && !IsTrimWs(s[0]) && !IsTrimWs(s[|s| - 1])
    ensures Trim(s) == s
  {
    assert LeadingWs(s) == 0;
    assert TrimStart(s) == s;
  }

  /** The stable normalisation is idempotent, and it agrees with the
      original whenever no whitespace hides in front of the trailing
      slashes. */
  lemma NormalizeStableIdempotent(basePath: bytes)
    ensures NormalizeBasePathStable(NormalizeBasePathStable(basePath)) == NormalizeBasePathStable(basePath)
  {
    var r := NormalizeBasePathStable(basePath);
    if |r| > 0 {
      TrimFixed(r);
      assert TrimEndSlashWs(r) == r;
    }
  }

  lemma NormalizeStableAgrees(basePath: bytes)
    requires var t := TrimEndByte(Trim(basePath), '/'); |t| == 0 || !IsTrimWs(t[|t| - 1])
    ensures NormalizeBasePathStable(basePath) == NormalizeBasePath(basePath)
  {
    var trimmed := Trim(basePath);
    var t := TrimEndByte(trimmed, '/');
    assert TrimEndSlashWs(t) == t;
    TrimEndSlashWsStops(trimmed);
    if |trimmed| > 0 && trimmed[0] == '/' && |t| == 0 {
      assert trimmed == "/" || |trimmed| > 1;
    }
  }

  /** Removing slashes and whitespace equals removing slashes first when
      that already stops at a byte that is neither. */
  lemma {:induction false} TrimEndSlashWsStops(s: bytes)
    ensures var t := TrimEndByte(s, '/'); (|t| == 0 || !IsTrimWs(t[|t| - 1])) ==> TrimEndSlashWs(s) == t
    decreases |s|
  {
    if |s| > 0 && s[|s| - 1] == '/' {
      TrimEndSlashWsStops(s[..|s| - 1]);
    }
  }

  /** `strip_base_path`: with no base every path passes; otherwise the path
      must be the base itself (giving "/") or continue it after a slash. */
  function StripBasePath(path: bytes, basePath: bytes): (r: Option<bytes>)
    ensures |basePath| == 0 ==> r == Some(path)
    ensures |basePath| > 0 && path == basePath ==> r == Some("/")
    ensures |basePath| > 0 && StartsWith(path, basePath + "/") ==> r == Some(path[|basePath|..])
    ensures |basePath| > 0 && r.Some? ==> path == basePath || StartsWith(path, basePath + "/")
  {
    if |basePath| == 0 then Some(path)
    else if !StartsWith(path, basePath) then None
    else
      var remainder := path[|basePath|..];
      assert path == basePath + remainder;
      if |remainder| == 0 then Some("/")
      else if remainder[0] == '/' then
        assert (basePath + "/") == path[..|basePath| + 1];
        Some(remainder)
      else
        assert path[|basePath|] != '/';
        None
  }

  const GEMINI_PREFIX: bytes := "/v1beta/models/"

  /** `match_route` once the base path has been stripped. */
  function MatchPath(verb: HttpMethod, path: bytes): RouteMatch {
    if path == "/" then (if verb == Get then Health else MethodNotAllowed)
    else if path == "/v1/models" then (if verb == Get then Models else MethodNotAllowed)
    else if path == "/v1/chat/completions" then (if verb == Post then OpenAiChat else MethodNotAllowed)
    else if path == "/v1/responses" then (if verb == Post then OpenAiResponses else MethodNotAllowed)
    else if path == "/v1/messages" then (if verb == Post then AnthropicMessages else MethodNotAllowed)
    else if StartsWith(path, GEMINI_PREFIX) then
      var modelAction := path[|GEMINI_PREFIX|..];
      if verb != Post then MethodNotAllowed
      else if |modelAction| == 0 then NotFound
      else Gemini(modelAction)
    else NotFound
  }

  /** `match_route`: a path outside the base is not found. */
  function MatchRoute(verb: HttpMethod, path: bytes, basePath: bytes): (m: RouteMatch)
    ensures StripBasePath(path, basePath).None? ==> m == NotFound
    ensures StripBasePath(path, basePath).Some? ==> m == MatchPath(verb, StripBasePath(path, basePath).value)
  {
    match StripBasePath(path, basePath)
    case None => NotFound
    case Some(rest) => MatchPath(verb, rest)
  }

  /** The fixed routes, with the method each one accepts. */
  const ROUTES: seq<(bytes, HttpMethod, RouteMatch)> := [
    ("/", Get, Health),
    ("/v1/models", Get, Models),
    ("/v1/chat/completions", Post, OpenAiChat),
    ("/v1/responses", Post, OpenAiResponses),
    ("/v1/messages", Post, AnthropicMessages)
  ]

  /** Each fixed route is served with its own method, and answered with 405
      for any other. */
  lemma FixedRoutesTable(verb: HttpMethod, k: nat)
    requires k < |ROUTES|
    ensures MatchPath(verb, ROUTES[k].0) == if verb == ROUTES[k].1 then ROUTES[k].2 else MethodNotAllowed
  {
  }

  /** Under `/v1beta/models/`, a POST with a non-empty action reaches Gemini
      with that action, an empty action is not found, and any other method
      is refused. */
  lemma GeminiRoute(verb: HttpMethod, action: bytes)
    ensures MatchPath(verb, GEMINI_PREFIX + action) ==
      if verb != Post then MethodNotAllowed
      else if |action| == 0 then NotFound
      else Gemini(action)
  {
    var path := GEMINI_PREFIX + action;
    assert path[..|GEMINI_PREFIX|] == GEMINI_PREFIX;
    assert path[|GEMINI_PREFIX|..] == action;
    assert |path| >= 15 && path[3] == 'b';
    assert path != "/" && path != "/v1/models";
    assert path != "/v1/chat/completions" by { assert "/v1/chat/completions"[3] == '/'; }
    assert path != "/v1/responses" by { assert "/v1/responses"[3] == '/'; }
    assert path != "/v1/messages" by { assert "/v1/messages"[3] == '/'; }
  }

  /** A request routed under a base path is routed as its remainder. */
  lemma BasePathIsTransparent(verb: HttpMethod, basePath: bytes, rest: bytes)
    requires |basePath| > 0 && |rest| > 0 && rest[0] == '/'
    ensures MatchRoute(verb, basePath + rest, basePath) == MatchPath(verb, rest)
  {
    var path := basePath + rest;
    assert path[..|basePath|] == basePath;
    assert path[|basePath|..] == rest;
  }
}
