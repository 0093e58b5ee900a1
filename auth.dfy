/** Client authentication (`src/auth.rs`): which header carries the client
    key on each ingress, the key index built from the configuration, and
    the check made against it. Headers are the three the gateway reads. */
module Auth {
  import opened Wrappers
  import opened Bytes
  import opened Canonical
  import opened Errors
  import Validation
  import Config

  datatype Headers = Headers(authorization: Option<bytes>, xApiKey: Option<bytes>, xGoogApiKey: Option<bytes>)

  /** The key index: none, one key (with its `Bearer ` form precomputed),
      or a set. */
  datatype AllowedClientKeys = Empty | Single(raw: bytes, bearer: bytes) | Multiple(keys: set<bytes>)

  /** `HeaderValue::to_str` succeeds on visible ASCII and tabs only. */
  predicate HeaderStr(v: bytes) { forall k | 0 <= k < |v| :: v[k] == '\t' || ' ' <= v[k] <= '~' }

  function AsStr(v: Option<bytes>): (r: Option<bytes>)
    ensures r.Some? <==> v.Some? && HeaderStr(v.value)
    ensures r.Some? ==> r.value == v.value
  {
    if v.Some? && HeaderStr(v.value) then v else None
  }

  const BEARER: bytes := "Bearer "

  /** `strip_prefix("Bearer ")`. */
  function StripBearer(v: Option<bytes>): (r: Option<bytes>)
    ensures r.Some? <==> v.Some? && StartsWith(v.value, BEARER)
    ensures r.Some? ==> v.value == BEARER + r.value
  {
    if v.Some? && StartsWith(v.value, BEARER) then
      assert v.value == BEARER + v.value[|BEARER|..];
      Some(v.value[|BEARER|..])
    else None
  }

  function MissingKey(): CanonicalError { Auth("Missing API key") }

  function InvalidKey(): CanonicalError { Auth("Invalid API key") }

  /** The key carried by `Authorization: Bearer <key>` (RFC 6750, section
      2.1), when the header is a valid string. */
  function BearerKey(h: Headers): Option<bytes> {
    StripBearer(AsStr(h.authorization))
  }

  /** `extract_api_key`: Anthropic reads `x-api-key`; the OpenAI ingresses
      read the bearer token; Gemini prefers `x-goog-api-key` and falls back
      to the bearer token. Anything else is a missing key. */
  function ExtractApiKey(ingress: IngressApi, h: Headers): (r: Result<bytes, CanonicalError>)
    ensures r.Err? ==> r.error == MissingKey()
    ensures ingress == Anthropic ==> (r.Ok? <==> AsStr(h.xApiKey).Some?) && (r.Ok? ==> r.value == h.xApiKey.value)
    ensures ingress in {OpenAiChat, OpenAiResponses} && r.Ok? ==> h.authorization == Some(BEARER + r.value)
    ensures ingress == Gemini && AsStr(h.xGoogApiKey).Some? ==> r == Ok(h.xGoogApiKey.value)
    ensures ingress == Gemini && r.Ok? ==> h.xGoogApiKey == Some(r.value) || h.authorization == Some(BEARER + r.value)
  {
    var key := match ingress
      case Anthropic => AsStr(h.xApiKey)
      case Gemini => if AsStr(h.xGoogApiKey).Some? then AsStr(h.xGoogApiKey) else BearerKey(h)
      case _ => BearerKey(h);
    match key
    case Some(k) => Ok(k)
    case None => Err(MissingKey())
  }

  /** Without a usable `x-goog-api-key`, Gemini reads the key exactly as the
      OpenAI ingresses do. */
  lemma GeminiFallsBackToBearer(h: Headers)
    requires AsStr(h.xGoogApiKey).None?
    ensures ExtractApiKey(Gemini, h) == ExtractApiKey(OpenAiChat, h)
  {
  }

  /** A well-formed bearer header yields its key on the OpenAI ingresses. */
  lemma BearerHeaderYieldsKey(h: Headers, key: bytes)
    requires h.authorization == Some(BEARER + key) && HeaderStr(BEARER + key)
    ensures ExtractApiKey(OpenAiChat, h) == Ok(key)
    ensures ExtractApiKey(OpenAiResponses, h) == Ok(key)
  {
    assert (BEARER + key)[|BEARER|..] == key;
    assert (BEARER + key)[..|BEARER|] == BEARER;
  }

  /** `extract_api_key_bytes_for_hash`: the same header choice on raw bytes,
      without the string check; a present `x-goog-api-key` always wins. */
  function KeyBytesForHash(ingress: IngressApi, h: Headers): (r: Option<bytes>)
    ensures ingress == Anthropic ==> r == h.xApiKey
    ensures ingress == Gemini && h.xGoogApiKey.Some? ==> r == h.xGoogApiKey
    ensures ingress != Anthropic && r.Some? ==> r == h.xGoogApiKey || h.authorization == Some(BEARER + r.value)
  {
    match ingress
    case Anthropic => h.xApiKey
    case Gemini => if h.xGoogApiKey.Some? then h.xGoogApiKey else StripBearer(h.authorization)
    case _ => StripBearer(h.authorization)
  }

  /** When every present header is a valid string, the hash input is the
      key that authentication extracts. */
  lemma HashBytesMatchExtractedKey(ingress: IngressApi, h: Headers)
    requires h.authorization.None? || HeaderStr(h.authorization.value)
    requires h.xApiKey.None? || HeaderStr(h.xApiKey.value)
    requires h.xGoogApiKey.None? || HeaderStr(h.xGoogApiKey.value)
    ensures KeyBytesForHash(ingress, h).Some? <==> ExtractApiKey(ingress, h).Ok?
    ensures KeyBytesForHash(ingress, h).Some? ==> KeyBytesForHash(ingress, h).value == ExtractApiKey(ingress, h).value
  {
  }

  /** `authenticate_single_key`: the header bytes are compared with the key
      (or with `Bearer ` and the key) directly; a present header that does
      not match is invalid, an absent one is missing. */
  function AuthenticateSingleKey(ingress: IngressApi, h: Headers, raw: bytes, bearer: bytes): (r: Result<(), CanonicalError>)
    ensures r.Err? ==> r.error in {MissingKey(), InvalidKey()}
    ensures ingress == Anthropic ==> (r.Ok? <==> h.xApiKey == Some(raw))
    ensures ingress in {OpenAiChat, OpenAiResponses} ==> (r.Ok? <==> h.authorization == Some(bearer))
    ensures ingress == Gemini ==> (r.Ok? <==> h.xGoogApiKey == Some(raw) || (h.xGoogApiKey.None? && h.authorization == Some(bearer)))
    ensures ingress == Anthropic ==> (r == Err(MissingKey()) <==> h.xApiKey.None?)
    ensures ingress == Anthropic ==> (r == Err(InvalidKey()) <==> h.xApiKey.Some? && h.xApiKey.value != raw)
    ensures ingress in {OpenAiChat, OpenAiResponses} ==> (r == Err(MissingKey()) <==> h.authorization.None?)
    ensures ingress in {OpenAiChat, OpenAiResponses} ==>
              (r == Err(InvalidKey()) <==> h.authorization.Some? && h.authorization.value != bearer)
    ensures ingress == Gemini ==> (r == Err(MissingKey()) <==> h.xGoogApiKey.None? && h.authorization.None?)
    ensures ingress == Gemini ==>
              (r == Err(InvalidKey()) <==> (h.xGoogApiKey.Some? && h.xGoogApiKey.value != raw)
                                           || (h.xGoogApiKey.None? && h.authorization.Some? && h.authorization.value != bearer))
  {
    var (header, expected) := match ingress
      case Anthropic => (h.xApiKey, raw)
      case Gemini => if h.xGoogApiKey.Some? then (h.xGoogApiKey, raw) else (h.authorization, bearer)
      case _ => (h.authorization, bearer);
    match header
    case None => Err(MissingKey())
    case Some(v) => if v == expected then Ok(()) else Err(InvalidKey())
  }

  /** `authenticate`: an empty index refuses everything; a set accepts
      exactly the requests whose extracted key it holds. */
  function Authenticate(ingress: IngressApi, h: Headers, allowed: AllowedClientKeys): (r: Result<(), CanonicalError>)
    ensures allowed.Empty? ==> r == Err(InvalidKey())
    ensures allowed.Multiple? ==> (r.Ok? <==> ExtractApiKey(ingress, h).Ok? && ExtractApiKey(ingress, h).value in allowed.keys)
    ensures allowed.Multiple? && ExtractApiKey(ingress, h).Err? ==> r == Err(MissingKey())
    ensures allowed.Multiple? && ExtractApiKey(ingress, h).Ok? && ExtractApiKey(ingress, h).value !in allowed.keys ==>
              r == Err(InvalidKey())
  {
    match allowed
    case Single(raw, bearer) => AuthenticateSingleKey(ingress, h, raw, bearer)
    case Multiple(keys) =>
      var key :- ExtractApiKey(ingress, h);
      if key in keys then Ok(()) else Err(InvalidKey())
    case Empty => Err(InvalidKey())
  }

  /** A single key accepts the same requests as a set holding only that
      key, provided the key and any `x-goog-api-key` are valid header
      strings. */
  lemma SingleAgreesWithSet(ingress: IngressApi, h: Headers, key: bytes)
    requires HeaderStr(key)
    requires h.xGoogApiKey.None? || HeaderStr(h.xGoogApiKey.value)
    ensures Authenticate(ingress, h, Single(key, BEARER + key)).Ok? <==> Authenticate(ingress, h, Multiple({key})).Ok?
  {
    var bearerKey := BEARER + key;
    assert HeaderStr(bearerKey);
    assert bearerKey[..|BEARER|] == BEARER && bearerKey[|BEARER|..] == key;
    if h.authorization.Some? && StartsWith(h.authorization.value, BEARER) {
      assert h.authorization.value == BEARER + h.authorization.value[|BEARER|..];
    }
  }

  // ------------------------------------------------------------------
  // Building the index

  function KeySet(keys: seq<bytes>): (r: set<bytes>)
    ensures forall k | 0 <= k < |keys| :: keys[k] in r
    ensures forall x | x in r :: x in keys
    ensures |r| == 0 <==> |keys| == 0
  {
    var r := set k | k in keys;
    assert |keys| > 0 ==> keys[0] in r && |r - {keys[0]}| == |r| - 1;
    r
  }

  lemma KeySetSnoc(keys: seq<bytes>, i: nat)
    requires i < |keys|
    ensures KeySet(keys[..i + 1]) == KeySet(keys[..i]) + {keys[i]}
  {
    assert keys[..i + 1] == keys[..i] + [keys[i]];
  }

  lemma SingletonMembers(s: set<bytes>, a: bytes, b: bytes)
    requires |s| == 1 && a in s && b in s
    ensures a == b
  {
    var rest := s - {a};
    assert |rest| == 0;
    assert b !in rest;
  }

  /** The index the configured keys give: no key, one distinct key, or
      several. */
  function AllowedKeysOf(keys: seq<bytes>): (r: AllowedClientKeys)
    ensures r.Empty? <==> |keys| == 0
    ensures r.Single? ==> r.bearer == BEARER + r.raw && forall k | 0 <= k < |keys| :: keys[k] == r.raw
    ensures r.Multiple? ==> r.keys == KeySet(keys) && |r.keys| >= 2
  {
    var s := KeySet(keys);
    if |s| == 0 then
      Empty
    else if |s| == 1 then
      SingletonFacts(s, keys);
      Single(keys[0], BEARER + keys[0])
    else Multiple(s)
  }

  lemma SingletonFacts(s: set<bytes>, keys: seq<bytes>)
    requires |s| == 1 && |keys| > 0 && forall k | 0 <= k < |keys| :: keys[k] in s
    ensures forall k | 0 <= k < |keys| :: keys[k] == keys[0]
  {
    forall k | 0 <= k < |keys| ensures keys[k] == keys[0] {
      SingletonMembers(s, keys[k], keys[0]);
    }
  }

  /** `build_allowed_key_set`: collect the keys into a set, then pick the
      index by its size, draining the set's one key in the single case. */
  method BuildAllowedKeySet(keys: seq<bytes>) returns (r: AllowedClientKeys)
    ensures r == AllowedKeysOf(keys)
  {
    var allowedSet: set<bytes> := {};
    var i := 0;
    while i < |keys|
      invariant i <= |keys| && allowedSet == KeySet(keys[..i])
    {
      KeySetSnoc(keys, i);
      allowedSet := allowedSet + {keys[i]};
      i := i + 1;
    }
    assert keys[..i] == keys;
    if |allowedSet| == 0 {
      return Empty;
    } else if |allowedSet| == 1 {
      var single :| single in allowedSet;
      assert keys[0] in allowedSet;
      SingletonMembers(allowedSet, single, keys[0]);
      return Single(single, BEARER + single);
    } else {
      return Multiple(allowedSet);
    }
  }

  /** Every configured key is accepted when presented as a bearer token on
      an OpenAI ingress (a valid header string). */
  lemma ConfiguredKeyAccepted(keys: seq<bytes>, k: nat)
    requires k < |keys| && HeaderStr(BEARER + keys[k])
    ensures Authenticate(OpenAiChat, Headers(Some(BEARER + keys[k]), None, None), AllowedKeysOf(keys)).Ok?
  {
    var h := Headers(Some(BEARER + keys[k]), None, None);
    BearerHeaderYieldsKey(h, keys[k]);
    assert keys[k] in KeySet(keys);
  }

  /** A configuration that passes validation never builds the empty index,
      so it does not lock every client out. */
  lemma ValidConfigHasKeys(c: Config.AppConfig, urlScheme: Validation.UrlScheme)
    requires Validation.ValidateConfig(c, urlScheme).Ok?
    ensures !AllowedKeysOf(c.allowedKeys).Empty?
  {
    Validation.ValidConfigFacts(c, urlScheme);
  }
}
