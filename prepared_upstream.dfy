/** Per-upstream tables prepared once at startup
    (`src/transport/prepared_upstream.rs`): the endpoint URL of each
    provider, the per-model Gemini URLs with their parsed forms, the static
    request headers and the proxies. The URL parser is the parameter
    `parses` (whether `url::Url::parse` accepts a text); a parsed URL is
    represented by its text. */
module PreparedUpstreams {
  import opened Wrappers
  import opened Bytes
  import opened Canonical
  import C = Config
  import D = Dispatch
  import V = Validation
  import ML = ModelList

  const CHAT_COMPLETIONS_PATH: bytes := "/chat/completions"
  const RESPONSES_PATH: bytes := "/responses"
  const MESSAGES_PATH: bytes := "/messages"
  const MODELS_PATH: bytes := "/models/"
  const GENERATE: bytes := ":generateContent"
  const STREAM_GENERATE: bytes := ":streamGenerateContent"

  const CONTENT_TYPE: bytes := "content-type"
  const AUTHORIZATION: bytes := "authorization"
  const X_API_KEY: bytes := "x-api-key"
  const ANTHROPIC_VERSION: bytes := "anthropic-version"
  const X_GOOG_API_KEY: bytes := "x-goog-api-key"
  const APPLICATION_JSON: bytes := "application/json"
  const BEARER: bytes := "Bearer "
  const DEFAULT_ANTHROPIC_VERSION: bytes := "2023-06-01"

  /** What `new` keeps: endpoint URLs (empty for other providers), their
      parsed forms, the Gemini tables keyed by real model name, the static
      headers (name to value) and the normalised proxies. */
  datatype PreparedUpstream = PreparedUpstream(
    providerKind: ProviderKind,
    openaiChatUrl: bytes,
    openaiChatUrlParsed: Option<bytes>,
    responsesUrl: bytes,
    responsesUrlParsed: Option<bytes>,
    anthropicMessagesUrl: bytes,
    anthropicMessagesUrlParsed: Option<bytes>,
    geminiModelPrefix: bytes,
    geminiNonStreamUrls: map<bytes, bytes>,
    geminiNonStreamUrlsParsed: map<bytes, bytes>,
    geminiStreamUrls: map<bytes, bytes>,
    geminiStreamUrlsParsed: map<bytes, bytes>,
    staticHeaders: map<bytes, bytes>,
    proxyDefault: Option<bytes>,
    proxyStream: Option<bytes>,
    proxyNonStream: Option<bytes>)

  /** The provider name, already validated at load time. */
  function ProviderKindOf(provider: bytes): ProviderKind
    requires provider in V.VALID_PROVIDERS
  {
    if provider == V.VALID_PROVIDERS[0] then OpenAi
    else if provider == V.VALID_PROVIDERS[1] then OpenAiResponsesProvider
    else if provider == V.VALID_PROVIDERS[2] then AnthropicProvider
    else if provider == V.VALID_PROVIDERS[3] then GeminiProvider
    else GeminiOpenAi
  }

  predicate ChatFamily(kind: ProviderKind) { kind == OpenAi || kind == GeminiOpenAi }

  /** `url::Url::parse(url).ok()`, the parsed URL kept as its text. */
  function ParseUrl(url: bytes, parses: bytes -> bool): Option<bytes> {
    if parses(url) then Some(url) else None
  }

  // ------------------------------------------------------------------
  // Proxies

  /** `normalize_proxy`: trimmed, and absent when nothing but whitespace. */
  function NormalizeProxy(proxy: Option<bytes>): (r: Option<bytes>)
    ensures r.None? <==> proxy.None? || Blank(proxy.value)
    ensures r.Some? ==> r.value == Trim(proxy.value) && r.value != []
  {
    match proxy
    case None => None
    case Some(value) =>
      BlankIsTrimEmpty(value);
      var trimmed := Trim(value);
      if trimmed == [] then None else Some(trimmed)
  }

  /** `proxy_for`: the stream-specific (or non-stream-specific) proxy,
      else the default one. */
  function ProxyFor(p: PreparedUpstream, stream: bool): (r: Option<bytes>)
    ensures var specific := if stream then p.proxyStream else p.proxyNonStream;
            (specific.Some? ==> r == specific) && (specific.None? ==> r == p.proxyDefault)
  {
    if stream then (if p.proxyStream.Some? then p.proxyStream else p.proxyDefault)
    else if p.proxyNonStream.Some? then p.proxyNonStream else p.proxyDefault
  }

  // ------------------------------------------------------------------
  // Headers

  /** Whether `http::HeaderValue::from_str` accepts a text: visible
      characters, spaces and tabs, no other control character. */
  predicate HeaderValueOk(s: bytes) {
    forall k | 0 <= k < |s| :: (s[k] >= ' ' && s[k] as int != 0x7F) || s[k] == '\t'
  }

  /** `build_provider_headers`: JSON content type for everyone; a bearer
      token for the OpenAI family; `x-api-key` and `anthropic-version`
      (default `2023-06-01`) for Anthropic; `x-goog-api-key` for Gemini.
      A value the header type refuses is left out. */
  function BuildProviderHeaders(upstream: C.UpstreamServiceConfig): (h: map<bytes, bytes>)
    requires upstream.provider in V.VALID_PROVIDERS
    ensures CONTENT_TYPE in h && h[CONTENT_TYPE] == APPLICATION_JSON
    ensures AUTHORIZATION in h <==>
              (ChatFamily(ProviderKindOf(upstream.provider)) || ProviderKindOf(upstream.provider) == OpenAiResponsesProvider)
              && HeaderValueOk(BEARER + upstream.apiKey)
    ensures AUTHORIZATION in h ==> h[AUTHORIZATION] == BEARER + upstream.apiKey
    ensures X_API_KEY in h <==> ProviderKindOf(upstream.provider) == AnthropicProvider && HeaderValueOk(upstream.apiKey)
    ensures X_GOOG_API_KEY in h <==> ProviderKindOf(upstream.provider) == GeminiProvider && HeaderValueOk(upstream.apiKey)
    ensures X_API_KEY in h ==> h[X_API_KEY] == upstream.apiKey
    ensures X_GOOG_API_KEY in h ==> h[X_GOOG_API_KEY] == upstream.apiKey
    ensures ANTHROPIC_VERSION in h <==>
              ProviderKindOf(upstream.provider) == AnthropicProvider
              && HeaderValueOk(upstream.apiVersion.GetOr(DEFAULT_ANTHROPIC_VERSION))
    ensures ANTHROPIC_VERSION in h ==> h[ANTHROPIC_VERSION] == upstream.apiVersion.GetOr(DEFAULT_ANTHROPIC_VERSION)
    ensures h.Keys <= {CONTENT_TYPE, AUTHORIZATION, X_API_KEY, ANTHROPIC_VERSION, X_GOOG_API_KEY}
  {
    var key := upstream.apiKey;
    var base := map[CONTENT_TYPE := APPLICATION_JSON];
    match ProviderKindOf(upstream.provider)
    case AnthropicProvider =>
      var version := upstream.apiVersion.GetOr(DEFAULT_ANTHROPIC_VERSION);
      var withKey := if HeaderValueOk(key) then base[X_API_KEY := key] else base;
      if HeaderValueOk(version) then withKey[ANTHROPIC_VERSION := version] else withKey
    case GeminiProvider =>
      if HeaderValueOk(key) then base[X_GOOG_API_KEY := key] else base
    case _ =>
      var bearer := BEARER + key;
      if HeaderValueOk(bearer) then base[AUTHORIZATION := bearer] else base
  }

  // ------------------------------------------------------------------
  // Gemini model names

  /** The real model of a `models` entry: the text after the first `:`
      (an `alias:target` entry) or the whole entry, trimmed. */
  function ActualModel(entry: bytes): bytes {
    match FindByte(entry, ':', 0)
    case Some(i) => Trim(entry[i + 1..])
    case None => Trim(entry)
  }

  /** An `alias:target` entry whose alias has no colon names `target`. */
  lemma ActualModelOfAlias(alias: bytes, target: bytes)
    requires !HasByte(alias, ':')
    ensures ActualModel(alias + ":" + target) == Trim(target)
  {
    var entry := alias + ":" + target;
    assert entry[|alias|] == ':';
    assert forall k | 0 <= k < |alias| :: entry[k] == alias[k];
    assert FindByte(entry, ':', 0) == Some(|alias|);
    assert entry[|alias| + 1..] == target;
  }

  /** The distinct non-empty real models of the configured entries. */
  function GeminiModels(entries: seq<bytes>): set<bytes>
    decreases |entries|
  {
    if |entries| == 0 then {} else GeminiModels(entries[..|entries| - 1]) + NonEmpty(ActualModel(entries[|entries| - 1]))
  }

  /** `{m}` for a non-empty `m`, nothing for an empty one. */
  function NonEmpty(m: bytes): (r: set<bytes>)
    ensures m in r <==> m != []
  {
    if m == [] then {} else {m}
  }

  lemma {:induction false} GeminiModelsMembers(entries: seq<bytes>, m: bytes)
    ensures m in GeminiModels(entries) <==> m != [] && exists k | 0 <= k < |entries| :: ActualModel(entries[k]) == m
    decreases |entries|
  {
    if |entries| > 0 {
      var init := entries[..|entries| - 1];
      GeminiModelsMembers(init, m);
      if exists k | 0 <= k < |entries| :: ActualModel(entries[k]) == m {
        var k :| 0 <= k < |entries| && ActualModel(entries[k]) == m;
        if k < |init| {
          assert init[k] == entries[k];
        }
      }
    }
  }

  /** The per-model URL table: `prefix + model + suffix` for every model. */
  function UrlTable(prefix: bytes, models: set<bytes>, suffix: bytes): map<bytes, bytes> {
    map m | m in models :: prefix + m + suffix
  }

  /** The same table restricted to the URLs the parser accepts. */
  function ParsedTable(prefix: bytes, models: set<bytes>, suffix: bytes, parses: bytes -> bool): map<bytes, bytes> {
    map m | m in models && parses(prefix + m + suffix) :: prefix + m + suffix
  }

  // ------------------------------------------------------------------
  // The prepared upstream

  /** What `PreparedUpstream::new` builds from a validated upstream. */
  function Prepared(upstream: C.UpstreamServiceConfig, parses: bytes -> bool): PreparedUpstream
    requires upstream.provider in V.VALID_PROVIDERS
  {
    var base := D.TrimEndByte(upstream.baseUrl, '/');
    var kind := ProviderKindOf(upstream.provider);
    var chat := if ChatFamily(kind) then base + CHAT_COMPLETIONS_PATH else [];
    var responses := if kind == OpenAiResponsesProvider then base + RESPONSES_PATH else [];
    var messages := if kind == AnthropicProvider then base + MESSAGES_PATH else [];
    var prefix := if kind == GeminiProvider then base + MODELS_PATH else [];
    var models := if kind == GeminiProvider then GeminiModels(upstream.models) else {};
    PreparedUpstream(
      kind,
      chat, if ChatFamily(kind) then ParseUrl(chat, parses) else None,
      responses, if kind == OpenAiResponsesProvider then ParseUrl(responses, parses) else None,
      messages, if kind == AnthropicProvider then ParseUrl(messages, parses) else None,
      prefix,
      UrlTable(prefix, models, GENERATE), ParsedTable(prefix, models, GENERATE, parses),
      UrlTable(prefix, models, STREAM_GENERATE), ParsedTable(prefix, models, STREAM_GENERATE, parses),
      BuildProviderHeaders(upstream),
      NormalizeProxy(upstream.proxy), NormalizeProxy(upstream.proxyStream), NormalizeProxy(upstream.proxyNonStream))
  }

  /** The first loop of `new`: the set of real Gemini models. */
  method CollectGeminiModels(entries: seq<bytes>) returns (models: set<bytes>)
    ensures models == GeminiModels(entries)
  {
    models := {};
    var i := 0;
    while i < |entries|
      invariant i <= |entries|
      invariant models == GeminiModels(entries[..i])
    {
      var actual := ActualModel(entries[i]);
      GeminiModelsStep(entries, i);
      if actual != [] {
        models := models + {actual};
      }
      assert models == GeminiModels(entries[..i + 1]);
      i := i + 1;
    }
    assert entries[..i] == entries;
  }

  lemma GeminiModelsStep(entries: seq<bytes>, i: nat)
    requires i < |entries|
    ensures GeminiModels(entries[..i + 1]) == GeminiModels(entries[..i]) + NonEmpty(ActualModel(entries[i]))
  {
    assert entries[..i + 1][..i] == entries[..i];
  }

  /** The second loop of `new`: for every model, its non-streaming and
      streaming URLs, and their parsed forms when the parser accepts them. */
  method FillGeminiTables(prefix: bytes, models: set<bytes>, parses: bytes -> bool)
    returns (nonStream: map<bytes, bytes>, nonStreamParsed: map<bytes, bytes>,
             stream: map<bytes, bytes>, streamParsed: map<bytes, bytes>)
    ensures nonStream == UrlTable(prefix, models, GENERATE)
    ensures nonStreamParsed == ParsedTable(prefix, models, GENERATE, parses)
    ensures stream == UrlTable(prefix, models, STREAM_GENERATE)
    ensures streamParsed == ParsedTable(prefix, models, STREAM_GENERATE, parses)
  {
    nonStream, nonStreamParsed, stream, streamParsed := map[], map[], map[], map[];
    var todo := models;
    ghost var done: set<bytes> := {};
    while todo != {}
      invariant done + todo == models && done !! todo
      invariant nonStream == UrlTable(prefix, done, GENERATE)
      invariant nonStreamParsed == ParsedTable(prefix, done, GENERATE, parses)
      invariant stream == UrlTable(prefix, done, STREAM_GENERATE)
      invariant streamParsed == ParsedTable(prefix, done, STREAM_GENERATE, parses)
      decreases |todo|
    {
      var model :| model in todo;
      var nonStreamUrl := prefix + model + GENERATE;
      var streamUrl := prefix + model + STREAM_GENERATE;
      TablesInsert(prefix, done, model, GENERATE, parses);
      TablesInsert(prefix, done, model, STREAM_GENERATE, parses);
      if parses(nonStreamUrl) {
        nonStreamParsed := nonStreamParsed[model := nonStreamUrl];
      }
      if parses(streamUrl) {
        streamParsed := streamParsed[model := streamUrl];
      }
      nonStream := nonStream[model := nonStreamUrl];
      stream := stream[model := streamUrl];
      done := done + {model};
      todo := todo - {model};
    }
  }

  lemma TablesInsert(prefix: bytes, done: set<bytes>, model: bytes, suffix: bytes, parses: bytes -> bool)
    requires model !in done
    ensures UrlTable(prefix, done + {model}, suffix) == UrlTable(prefix, done, suffix)[model := prefix + model + suffix]
    ensures ParsedTable(prefix, done + {model}, suffix, parses)
            == if parses(prefix + model + suffix)
               then ParsedTable(prefix, done, suffix, parses)[model := prefix + model + suffix]
               else ParsedTable(prefix, done, suffix, parses)
  {
  }

  /** `PreparedUpstream::new`. */
  method New(upstream: C.UpstreamServiceConfig, parses: bytes -> bool) returns (p: PreparedUpstream)
    requires upstream.provider in V.VALID_PROVIDERS
    ensures p == Prepared(upstream, parses)
  {
    var base := D.TrimEndByte(upstream.baseUrl, '/');
    var kind := ProviderKindOf(upstream.provider);
    var headers := BuildProviderHeaders(upstream);
    var chat, chatParsed: Option<bytes> := [], None;
    var responses, responsesParsed: Option<bytes> := [], None;
    var messages, messagesParsed: Option<bytes> := [], None;
    var prefix := [];
    var nonStream, nonStreamParsed, stream, streamParsed := map[], map[], map[], map[];
    var proxyDefault := NormalizeProxy(upstream.proxy);
    var proxyStream := NormalizeProxy(upstream.proxyStream);
    var proxyNonStream := NormalizeProxy(upstream.proxyNonStream);
    match kind {
      case OpenAi =>
        chat := base + CHAT_COMPLETIONS_PATH;
        chatParsed := ParseUrl(chat, parses);
      case GeminiOpenAi =>
        chat := base + CHAT_COMPLETIONS_PATH;
        chatParsed := ParseUrl(chat, parses);
      case OpenAiResponsesProvider =>
        responses := base + RESPONSES_PATH;
        responsesParsed := ParseUrl(responses, parses);
      case AnthropicProvider =>
        messages := base + MESSAGES_PATH;
        messagesParsed := ParseUrl(messages, parses);
      case GeminiProvider =>
        prefix := base + MODELS_PATH;
        var models := CollectGeminiModels(upstream.models);
        nonStream, nonStreamParsed, stream, streamParsed := FillGeminiTables(prefix, models, parses);
    }
    if kind != GeminiProvider {
      assert UrlTable(prefix, {}, GENERATE) == map[] && UrlTable(prefix, {}, STREAM_GENERATE) == map[];
      assert ParsedTable(prefix, {}, GENERATE, parses) == map[] && ParsedTable(prefix, {}, STREAM_GENERATE, parses) == map[];
    }
    p := PreparedUpstream(kind, chat, chatParsed, responses, responsesParsed, messages, messagesParsed,
                          prefix, nonStream, nonStreamParsed, stream, streamParsed, headers,
                          proxyDefault, proxyStream, proxyNonStream);
  }

  // ------------------------------------------------------------------
  // Lookups

  /** `request_url`: the provider's endpoint; for Gemini the model's
      prepared URL, or one formatted on the spot for an unknown model. */
  function RequestUrl(p: PreparedUpstream, model: bytes, stream: bool): bytes {
    match p.providerKind
    case OpenAi => p.openaiChatUrl
    case GeminiOpenAi => p.openaiChatUrl
    case OpenAiResponsesProvider => p.responsesUrl
    case AnthropicProvider => p.anthropicMessagesUrl
    case GeminiProvider =>
      if stream then
        (if model in p.geminiStreamUrls then p.geminiStreamUrls[model] else p.geminiModelPrefix + model + STREAM_GENERATE)
      else if model in p.geminiNonStreamUrls then p.geminiNonStreamUrls[model]
      else p.geminiModelPrefix + model + GENERATE
  }

  /** `static_url`: the pre-parsed endpoint when it does not depend on the
      model; never for Gemini. */
  function StaticUrl(p: PreparedUpstream): (r: Option<bytes>)
    ensures p.providerKind == GeminiProvider ==> r.None?
  {
    match p.providerKind
    case OpenAi => p.openaiChatUrlParsed
    case GeminiOpenAi => p.openaiChatUrlParsed
    case OpenAiResponsesProvider => p.responsesUrlParsed
    case AnthropicProvider => p.anthropicMessagesUrlParsed
    case GeminiProvider => None
  }

  /** `request_url_parsed`: the static URL, or for Gemini the model's
      pre-parsed URL when there is one. */
  function RequestUrlParsed(p: PreparedUpstream, model: bytes, stream: bool): (r: Option<bytes>)
    ensures p.providerKind != GeminiProvider ==> r == StaticUrl(p)
  {
    match p.providerKind
    case GeminiProvider =>
      if stream then (if model in p.geminiStreamUrlsParsed then Some(p.geminiStreamUrlsParsed[model]) else None)
      else if model in p.geminiNonStreamUrlsParsed then Some(p.geminiNonStreamUrlsParsed[model]) else None
    case _ => StaticUrl(p)
  }

  // ------------------------------------------------------------------
  // Properties

  /** The endpoint a provider is reached at, from the trimmed base URL. */
  function EndpointUrl(kind: ProviderKind, base: bytes, model: bytes, stream: bool): bytes {
    match kind
    case OpenAi => base + CHAT_COMPLETIONS_PATH
    case GeminiOpenAi => base + CHAT_COMPLETIONS_PATH
    case OpenAiResponsesProvider => base + RESPONSES_PATH
    case AnthropicProvider => base + MESSAGES_PATH
    case GeminiProvider => base + MODELS_PATH + model + (if stream then STREAM_GENERATE else GENERATE)
  }

  /** The prepared tables are transparent: every model, configured or not,
      gets the endpoint built from the base URL without trailing slashes. */
  lemma RequestUrlIsEndpoint(upstream: C.UpstreamServiceConfig, parses: bytes -> bool, model: bytes, stream: bool)
    requires upstream.provider in V.VALID_PROVIDERS
    ensures RequestUrl(Prepared(upstream, parses), model, stream)
            == EndpointUrl(ProviderKindOf(upstream.provider), D.TrimEndByte(upstream.baseUrl, '/'), model, stream)
  {
    var base := D.TrimEndByte(upstream.baseUrl, '/');
    var suffix := if stream then STREAM_GENERATE else GENERATE;
    assert base + MODELS_PATH + model + suffix == (base + MODELS_PATH) + model + suffix;
  }

  /** Trailing slashes of the base URL do not reach the endpoint. */
  lemma TrailingSlashesIgnored(upstream: C.UpstreamServiceConfig, parses: bytes -> bool, base: bytes, slashes: nat,
                               model: bytes, stream: bool)
    requires upstream.provider in V.VALID_PROVIDERS
    requires |base| == 0 || base[|base| - 1] != '/'
    requires upstream.baseUrl == base + seq(slashes, _ => '/')
    ensures RequestUrl(Prepared(upstream, parses), model, stream)
            == EndpointUrl(ProviderKindOf(upstream.provider), base, model, stream)
  {
    ML.TrimEndSlashes(base, slashes);
    RequestUrlIsEndpoint(upstream, parses, model, stream);
  }

  /** For Gemini a pre-parsed URL exists exactly for the configured real
      models whose endpoint the parser accepts, and it is that endpoint. */
  lemma ParsedUrlExactlyForConfigured(upstream: C.UpstreamServiceConfig, parses: bytes -> bool, model: bytes, stream: bool)
    requires upstream.provider in V.VALID_PROVIDERS && ProviderKindOf(upstream.provider) == GeminiProvider
    ensures var p := Prepared(upstream, parses);
            RequestUrlParsed(p, model, stream).Some? <==> model in GeminiModels(upstream.models) && parses(RequestUrl(p, model, stream))
    ensures var p := Prepared(upstream, parses);
            RequestUrlParsed(p, model, stream).Some? ==> RequestUrlParsed(p, model, stream).value == RequestUrl(p, model, stream)
  {
  }

  /** Away from Gemini, the parsed URL is the endpoint whenever the parser
      accepts it, whatever the model. */
  lemma StaticUrlIsEndpoint(upstream: C.UpstreamServiceConfig, parses: bytes -> bool, model: bytes, stream: bool)
    requires upstream.provider in V.VALID_PROVIDERS && ProviderKindOf(upstream.provider) != GeminiProvider
    ensures var p := Prepared(upstream, parses);
            RequestUrlParsed(p, model, stream) == ParseUrl(RequestUrl(p, model, stream), parses)
  {
  }

  /** The configured alias target `target` of an entry `alias:target` gets
      pre-parsed URLs, under its trimmed target name. */
  lemma AliasTargetIsConfigured(entries: seq<bytes>, k: nat, alias: bytes, target: bytes)
    requires k < |entries| && entries[k] == alias + ":" + target
    requires !HasByte(alias, ':') && Trim(target) != []
    ensures Trim(target) in GeminiModels(entries)
  {
    ActualModelOfAlias(alias, target);
    GeminiModelsMembers(entries, Trim(target));
  }

  /** The proxy used for a direction: that direction's configured proxy,
      else the default one, each trimmed and ignored when blank. */
  lemma ProxyForPrepared(upstream: C.UpstreamServiceConfig, parses: bytes -> bool, stream: bool)
    requires upstream.provider in V.VALID_PROVIDERS
    ensures var specific := NormalizeProxy(if stream then upstream.proxyStream else upstream.proxyNonStream);
            ProxyFor(Prepared(upstream, parses), stream) == if specific.Some? then specific else NormalizeProxy(upstream.proxy)
  {
  }

  /** An Anthropic upstream without an API version and with a plain key
      sends the key as `x-api-key`, version `2023-06-01`, and no bearer
      token. */
  lemma AnthropicDefaultHeaders(upstream: C.UpstreamServiceConfig)
    requires upstream.provider == V.VALID_PROVIDERS[2] && upstream.apiVersion.None?
    requires HeaderValueOk(upstream.apiKey)
    ensures var h := BuildProviderHeaders(upstream);
            X_API_KEY in h && h[X_API_KEY] == upstream.apiKey
            && ANTHROPIC_VERSION in h && h[ANTHROPIC_VERSION] == DEFAULT_ANTHROPIC_VERSION
            && AUTHORIZATION !in h
  {
    assert HeaderValueOk(DEFAULT_ANTHROPIC_VERSION) by {
      forall k | 0 <= k < |DEFAULT_ANTHROPIC_VERSION| ensures DEFAULT_ANTHROPIC_VERSION[k] >= ' ' && DEFAULT_ANTHROPIC_VERSION[k] as int != 0x7F {
      }
    }
  }
}
