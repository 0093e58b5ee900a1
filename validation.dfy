/** Semantic validation of a loaded configuration
    (`src/config/validation.rs`). Each rule answers with the first
    violation it finds; the five rule groups run in a fixed order. Error
    texts are represented by one `ConfigIssue` constructor per message. */
module Validation {
  import opened Wrappers
  import opened Bytes
  import opened Ints
  import opened Config

  datatype ConfigIssue =
    | PoolIdleZero
    | WorkerThreadsZero
    | MaxBlockingThreadsZero
    | ThreadStackSizeZero
    | ListenerCountZero
    | NoAllowedKeys
    | EmptyAllowedKey
    | NoUpstreams
    | BadBaseUrl(service: bytes)
    | EmptyApiKey(service: bytes)
    | UnknownProvider(service: bytes, provider: bytes)
    | EmptyProxy(service: bytes, field: bytes)
    | ProxyNotUrl(service: bytes, field: bytes)
    | ProxyScheme(service: bytes, field: bytes)
    | NoModels(service: bytes)
    | EmptyModel(service: bytes)
    | DuplicateModel(service: bytes, model: bytes)
    | BadAlias(model: bytes)
    | AliasConflict
    | BadLogLevel
    | BadPromptTemplate
    | BadRetryTemplate

  /** A URL parser: the scheme of a string that parses as a URL, `None`
      when it does not parse. */
  type UrlScheme = bytes -> Option<bytes>

  // ------------------------------------------------------------------
  // Server section

  predicate PositiveWhenSet(n: Option<nat>) { n.None? || n.value > 0 }

  /** `validate_server_config`: the idle-pool size must be positive, and so
      must each optional runtime count that is set; the first violation in
      field order is reported. */
  function ValidateServerConfig(s: ServerConfig): (r: Result<(), ConfigIssue>)
    ensures r.Ok? <==> (s.httpPoolMaxIdlePerHost > 0 && PositiveWhenSet(s.runtimeWorkerThreads)
                        && PositiveWhenSet(s.runtimeMaxBlockingThreads) && PositiveWhenSet(s.runtimeThreadStackSizeKb)
                        && PositiveWhenSet(s.tcpReusePortListenerCount))
    ensures s.httpPoolMaxIdlePerHost == 0 ==> r == Err(PoolIdleZero)
  {
    if s.httpPoolMaxIdlePerHost == 0 then Err(PoolIdleZero)
    else if !PositiveWhenSet(s.runtimeWorkerThreads) then Err(WorkerThreadsZero)
    else if !PositiveWhenSet(s.runtimeMaxBlockingThreads) then Err(MaxBlockingThreadsZero)
    else if !PositiveWhenSet(s.runtimeThreadStackSizeKb) then Err(ThreadStackSizeZero)
    else if !PositiveWhenSet(s.tcpReusePortListenerCount) then Err(ListenerCountZero)
    else Ok(())
  }

  // ------------------------------------------------------------------
  // Client keys

  /** The first blank key at or after `from`. */
  function FirstBlankFrom(keys: seq<bytes>, from: nat): (r: Option<nat>)
    ensures r.Some? ==> from <= r.value < |keys| && Blank(keys[r.value])
    ensures r.None? ==> forall k | from <= k < |keys| :: !Blank(keys[k])
    decreases |keys| - from
  {
    if from >= |keys| then None
    else if Blank(keys[from]) then Some(from)
    else FirstBlankFrom(keys, from + 1)
  }

  /** `validate_allowed_keys`: at least one key, and none that is empty
      after trimming. */
  function ValidateAllowedKeys(keys: seq<bytes>): (r: Result<(), ConfigIssue>)
    ensures r.Ok? <==> |keys| > 0 && forall k | 0 <= k < |keys| :: !Blank(keys[k])
    ensures |keys| == 0 ==> r == Err(NoAllowedKeys)
  {
    if |keys| == 0 then Err(NoAllowedKeys)
    else if FirstBlankFrom(keys, 0).Some? then Err(EmptyAllowedKey)
    else Ok(())
  }

  // ------------------------------------------------------------------
  // Upstream services

  const VALID_PROVIDERS: seq<bytes> := ["openai", "openai-responses", "anthropic", "gemini", "gemini-openai"]

  /** `validate_proxy_url`: an unset proxy passes; a set one must be
      non-blank, parse as a URL and use http or https. */
  function ProxyIssue(service: bytes, field: bytes, proxy: Option<bytes>, urlScheme: UrlScheme): (r: Option<ConfigIssue>)
    ensures proxy.None? ==> r.None?
    ensures proxy.Some? && Blank(proxy.value) ==> r == Some(EmptyProxy(service, field))
    ensures r.None? ==> proxy.None? || urlScheme(Trim(proxy.value)) in {Some("http"), Some("https")}
  {
    match proxy
    case None => None
    case Some(p) =>
      var t := Trim(p);
      if |t| == 0 then Some(EmptyProxy(service, field))
      else match urlScheme(t)
        case None => Some(ProxyNotUrl(service, field))
        case Some(scheme) => if scheme == "http" || scheme == "https" then None else Some(ProxyScheme(service, field))
  }

  /** The checks made on each service in the first pass, in order. */
  function ServiceIssue(svc: UpstreamServiceConfig, urlScheme: UrlScheme): (r: Option<ConfigIssue>)
    ensures r.None? ==> (StartsWith(svc.baseUrl, "http://") || StartsWith(svc.baseUrl, "https://"))
                        && !Blank(svc.apiKey) && svc.provider in VALID_PROVIDERS
    ensures !StartsWith(svc.baseUrl, "http://") && !StartsWith(svc.baseUrl, "https://") ==> r == Some(BadBaseUrl(svc.name))
  {
    if !StartsWith(svc.baseUrl, "http://") && !StartsWith(svc.baseUrl, "https://") then Some(BadBaseUrl(svc.name))
    else if Blank(svc.apiKey) then Some(EmptyApiKey(svc.name))
    else if svc.provider !in VALID_PROVIDERS then Some(UnknownProvider(svc.name, svc.provider))
    else if ProxyIssue(svc.name, "proxy", svc.proxy, urlScheme).Some? then ProxyIssue(svc.name, "proxy", svc.proxy, urlScheme)
    else if ProxyIssue(svc.name, "proxy_stream", svc.proxyStream, urlScheme).Some? then
      ProxyIssue(svc.name, "proxy_stream", svc.proxyStream, urlScheme)
    else ProxyIssue(svc.name, "proxy_non_stream", svc.proxyNonStream, urlScheme)
  }

  function FirstServiceIssue(svcs: seq<UpstreamServiceConfig>, i: nat, urlScheme: UrlScheme): (r: Option<ConfigIssue>)
    ensures r.None? <==> forall k | i <= k < |svcs| :: ServiceIssue(svcs[k], urlScheme).None?
    decreases |svcs| - i
  {
    if i >= |svcs| then None
    else match ServiceIssue(svcs[i], urlScheme)
      case Some(x) => Some(x)
      case None => FirstServiceIssue(svcs, i + 1, urlScheme)
  }

  function FirstWithoutModels(svcs: seq<UpstreamServiceConfig>, i: nat): (r: Option<ConfigIssue>)
    ensures r.None? <==> forall k | i <= k < |svcs| :: |svcs[k].models| > 0
    decreases |svcs| - i
  {
    if i >= |svcs| then None
    else if |svcs[i].models| == 0 then Some(NoModels(svcs[i].name))
    else FirstWithoutModels(svcs, i + 1)
  }

  /** An `alias:real` entry needs both sides non-blank; a plain entry is a
      regular model name. */
  predicate IsAliasEntry(m: bytes) { FindByte(m, ':', 0).Some? }

  function AliasPart(m: bytes): bytes
    requires IsAliasEntry(m)
  {
    m[..FindByte(m, ':', 0).value]
  }

  function RealPart(m: bytes): bytes
    requires IsAliasEntry(m)
  {
    m[FindByte(m, ':', 0).value + 1..]
  }

  predicate AliasWellFormed(m: bytes) {
    IsAliasEntry(m) ==> !Blank(AliasPart(m)) && !Blank(RealPart(m))
  }

  /** The model checks of one service from entry `j` on, with the entries
      before `j` already in `entries`. */
  function ModelIssueFrom(name: bytes, models: seq<bytes>, j: nat, entries: set<bytes>): Option<ConfigIssue>
    decreases |models| - j
  {
    if j >= |models| then None
    else
      var m := models[j];
      if Blank(m) then Some(EmptyModel(name))
      else if m in entries then Some(DuplicateModel(name, m))
      else if !AliasWellFormed(m) then Some(BadAlias(m))
      else ModelIssueFrom(name, models, j + 1, entries + {m})
  }

  function ModelsIssueFrom(svcs: seq<UpstreamServiceConfig>, i: nat): Option<ConfigIssue>
    decreases |svcs| - i
  {
    if i >= |svcs| then None
    else match ModelIssueFrom(svcs[i].name, svcs[i].models, 0, {})
      case Some(x) => Some(x)
      case None => ModelsIssueFrom(svcs, i + 1)
  }

  /** What one entry adds to the alias names and to the regular names. */
  function AliasOfEntry(m: bytes): set<bytes> {
    if IsAliasEntry(m) then {AliasPart(m)} else {}
  }

  function RegularOfEntry(m: bytes): set<bytes> {
    if IsAliasEntry(m) then {} else {m}
  }

  function AliasesOf(models: seq<bytes>): set<bytes> {
    if |models| == 0 then {} else AliasesOf(models[..|models| - 1]) + AliasOfEntry(models[|models| - 1])
  }

  function RegularsOf(models: seq<bytes>): set<bytes> {
    if |models| == 0 then {} else RegularsOf(models[..|models| - 1]) + RegularOfEntry(models[|models| - 1])
  }

  function AllAliases(svcs: seq<UpstreamServiceConfig>): set<bytes> {
    if |svcs| == 0 then {} else AllAliases(svcs[..|svcs| - 1]) + AliasesOf(svcs[|svcs| - 1].models)
  }

  function AllRegulars(svcs: seq<UpstreamServiceConfig>): set<bytes> {
    if |svcs| == 0 then {} else AllRegulars(svcs[..|svcs| - 1]) + RegularsOf(svcs[|svcs| - 1].models)
  }

  /** `validate_upstream_services`, pass by pass. */
  function UpstreamServicesVerdict(svcs: seq<UpstreamServiceConfig>, urlScheme: UrlScheme): Result<(), ConfigIssue> {
    if |svcs| == 0 then Err(NoUpstreams)
    else match FirstServiceIssue(svcs, 0, urlScheme)
      case Some(x) => Err(x)
      case None =>
        match FirstWithoutModels(svcs, 0)
        case Some(x) => Err(x)
        case None =>
          match ModelsIssueFrom(svcs, 0)
          case Some(x) => Err(x)
          case None => if AllAliases(svcs) * AllRegulars(svcs) != {} then Err(AliasConflict) else Ok(())
  }

  /** What a valid service list is, rule by rule. */
  /** Entry `n` is non-blank, a well-formed alias if it is one, and not
      listed earlier. */
  predicate EntryOk(models: seq<bytes>, n: int)
    requires 0 <= n < |models|
  {
    !Blank(models[n]) && AliasWellFormed(models[n]) && models[n] !in models[..n]
  }

  predicate ModelsWellFormed(models: seq<bytes>) {
    forall n | 0 <= n < |models| :: EntryOk(models, n)
  }

  predicate ServicesValid(svcs: seq<UpstreamServiceConfig>, urlScheme: UrlScheme) {
    && |svcs| > 0
    && (forall i | 0 <= i < |svcs| :: ServiceIssue(svcs[i], urlScheme).None?)
    && (forall i | 0 <= i < |svcs| :: |svcs[i].models| > 0 && ModelsWellFormed(svcs[i].models))
    && AllAliases(svcs) !! AllRegulars(svcs)
  }

  /** The entries listed before position `j`. */
  function EntriesBefore(models: seq<bytes>, j: nat): set<bytes>
    requires j <= |models|
  {
    set m | m in models[..j]
  }

  lemma {:induction false} ModelIssueFromNone(name: bytes, models: seq<bytes>, j: nat, entries: set<bytes>)
    requires j <= |models| && entries == EntriesBefore(models, j)
    ensures ModelIssueFrom(name, models, j, entries).None? <==> forall n | j <= n < |models| :: EntryOk(models, n)
    decreases |models| - j
  {
    if j < |models| {
      assert models[..j + 1] == models[..j] + [models[j]];
      assert entries + {models[j]} == EntriesBefore(models, j + 1);
      assert models[j] in entries <==> models[j] in models[..j];
      ModelIssueFromNone(name, models, j + 1, entries + {models[j]});
      assert EntryOk(models, j) <==> !Blank(models[j]) && AliasWellFormed(models[j]) && models[j] !in entries;
      assert (forall n | j <= n < |models| :: EntryOk(models, n)) <==>
             EntryOk(models, j) && forall n | j + 1 <= n < |models| :: EntryOk(models, n);
    }
  }

  lemma {:induction false} ModelsIssueFromNone(svcs: seq<UpstreamServiceConfig>, i: nat)
    ensures ModelsIssueFrom(svcs, i).None? <==> forall n | i <= n < |svcs| :: ModelsWellFormed(svcs[n].models)
    decreases |svcs| - i
  {
    if i < |svcs| {
      var models := svcs[i].models;
      assert models[..0] == [];
      assert EntriesBefore(models, 0) == {};
      ModelIssueFromNone(svcs[i].name, models, 0, {});
      ModelsIssueFromNone(svcs, i + 1);
    }
  }

  /** The pass-by-pass verdict accepts exactly the valid service lists. */
  lemma UpstreamServicesVerdictMeaning(svcs: seq<UpstreamServiceConfig>, urlScheme: UrlScheme)
    ensures UpstreamServicesVerdict(svcs, urlScheme).Ok? <==> ServicesValid(svcs, urlScheme)
  {
    ModelsIssueFromNone(svcs, 0);
    var passes := FirstServiceIssue(svcs, 0, urlScheme).None? && FirstWithoutModels(svcs, 0).None?
                  && ModelsIssueFrom(svcs, 0).None?;
    assert UpstreamServicesVerdict(svcs, urlScheme).Ok? <==>
      |svcs| > 0 && passes && AllAliases(svcs) * AllRegulars(svcs) == {};
    assert AllAliases(svcs) * AllRegulars(svcs) == {} <==> AllAliases(svcs) !! AllRegulars(svcs);
  }

  /** The same model may be served by two services. */
  lemma SameModelAcrossServices(a: UpstreamServiceConfig, b: UpstreamServiceConfig, m: bytes, urlScheme: UrlScheme)
    requires ServiceIssue(a, urlScheme).None? && ServiceIssue(b, urlScheme).None?
    requires !Blank(m) && !IsAliasEntry(m) && a.models == [m] && b.models == [m]
    ensures UpstreamServicesVerdict([a, b], urlScheme) == Ok(())
  {
    var svcs := [a, b];
    assert [m][..0] == [] && [m][..1] == [m];
    assert EntryOk([m], 0);
    assert ModelsWellFormed([m]);
    assert AliasOfEntry(m) == {};
    assert AliasesOf([m]) == AliasesOf([]) + AliasOfEntry(m);
    assert svcs[..1] == [a] && [a][..0] == [];
    assert AllAliases([a]) == AllAliases([]) + AliasesOf(a.models);
    assert AllAliases(svcs) == AllAliases([a]) + AliasesOf(b.models);
    assert AllAliases(svcs) == {};
    UpstreamServicesVerdictMeaning(svcs, urlScheme);
    assert ServicesValid(svcs, urlScheme);
  }

  /** One service may not list the same model twice. */
  lemma DuplicateInServiceRejected(a: UpstreamServiceConfig, m: bytes, urlScheme: UrlScheme)
    requires ServiceIssue(a, urlScheme).None?
    requires !Blank(m) && !IsAliasEntry(m) && a.models == [m, m]
    ensures UpstreamServicesVerdict([a], urlScheme) == Err(DuplicateModel(a.name, m))
  {
    assert FirstServiceIssue([a], 0, urlScheme).None?;
    assert FirstWithoutModels([a], 0).None?;
    assert ModelIssueFrom(a.name, [m, m], 0, {}) == ModelIssueFrom(a.name, [m, m], 1, {m});
    assert ModelIssueFrom(a.name, [m, m], 1, {m}) == Some(DuplicateModel(a.name, m));
    assert ModelsIssueFrom([a], 0) == Some(DuplicateModel(a.name, m));
  }

  /** An alias may not shadow a regular model name, even in the same
      service. */
  lemma AliasShadowingRegularRejected(a: UpstreamServiceConfig, alias: bytes, realName: bytes, urlScheme: UrlScheme)
    requires ServiceIssue(a, urlScheme).None?
    requires !Blank(alias) && !Blank(realName) && !HasByte(alias, ':')
    requires a.models == [alias + ":" + realName, alias]
    ensures UpstreamServicesVerdict([a], urlScheme) == Err(AliasConflict)
  {
    var entry := alias + ":" + realName;
    assert FindByte(entry, ':', 0) == Some(|alias|) by {
      assert entry[|alias|] == ':';
      assert forall k | 0 <= k < |alias| :: entry[k] == alias[k];
    }
    assert AliasPart(entry) == alias && RealPart(entry) == realName;
    assert FindByte(alias, ':', 0).None?;
    assert entry != alias by { assert |entry| > |alias|; }
    var models := a.models;
    assert models[..1] == [entry] && [entry][..0] == [];
    assert AliasOfEntry(entry) == {alias} && AliasOfEntry(alias) == {};
    assert RegularOfEntry(entry) == {} && RegularOfEntry(alias) == {alias};
    assert AliasesOf([entry]) == {alias};
    assert RegularsOf([entry]) == {};
    assert AliasesOf(models) == AliasesOf([entry]) + AliasOfEntry(alias);
    assert RegularsOf(models) == RegularsOf([entry]) + RegularOfEntry(alias);
    assert [a][..0] == [];
    assert AllAliases([a]) * AllRegulars([a]) == {alias};
    assert AliasWellFormed(entry) && AliasWellFormed(alias);
    assert !Blank(entry) by { assert !IsTrimWs(entry[|alias|]); }
    assert models[0] == entry && models[1] == alias;
    var none: set<bytes> := {};
    assert entry !in none && none + {entry} == {entry};
    assert ModelIssueFrom(a.name, models, 0, {}) == ModelIssueFrom(a.name, models, 1, {entry});
    assert ModelIssueFrom(a.name, models, 1, {entry}) == ModelIssueFrom(a.name, models, 2, {entry, alias});
    assert ModelsIssueFrom([a], 0).None?;
    assert FirstServiceIssue([a], 0, urlScheme).None?;
    assert FirstWithoutModels([a], 0).None?;
  }

  /** The third pass over one service: every entry is checked, added to
      the service's entry set and to the alias or the regular names. */
  method CheckServiceModels(name: bytes, models: seq<bytes>, regularIn: set<bytes>, aliasesIn: set<bytes>)
    returns (issue: Option<ConfigIssue>, regularModels: set<bytes>, allAliases: set<bytes>)
    ensures issue == ModelIssueFrom(name, models, 0, {})
    ensures issue.None? ==> regularModels == regularIn + RegularsOf(models) && allAliases == aliasesIn + AliasesOf(models)
  {
    regularModels, allAliases := regularIn, aliasesIn;
    var serviceEntries: set<bytes> := {};
    var j := 0;
    while j < |models|
      invariant j <= |models|
      invariant ModelIssueFrom(name, models, 0, {}) == ModelIssueFrom(name, models, j, serviceEntries)
      invariant regularModels == regularIn + RegularsOf(models[..j])
      invariant allAliases == aliasesIn + AliasesOf(models[..j])
    {
      var model := models[j];
      if Blank(model) {
        return Some(EmptyModel(name)), regularModels, allAliases;
      }
      if model in serviceEntries {
        return Some(DuplicateModel(name, model)), regularModels, allAliases;
      }
      serviceEntries := serviceEntries + {model};
      assert models[..j + 1][..j] == models[..j];
      var colon := FindByte(model, ':', 0);
      if colon.Some? {
        if Blank(model[..colon.value]) || Blank(model[colon.value + 1..]) {
          return Some(BadAlias(model)), regularModels, allAliases;
        }
        allAliases := allAliases + {model[..colon.value]};
      } else {
        regularModels := regularModels + {model};
      }
      j := j + 1;
    }
    assert models[..j] == models;
    return None, regularModels, allAliases;
  }

  /** `validate_upstream_services` as written: three passes over the
      services, the third filling the per-service entry set and the global
      alias and regular-name sets, then the alias/regular clash check. */
  method ValidateUpstreamServices(svcs: seq<UpstreamServiceConfig>, urlScheme: UrlScheme) returns (r: Result<(), ConfigIssue>)
    ensures r == UpstreamServicesVerdict(svcs, urlScheme)
  {
    if |svcs| == 0 {
      return Err(NoUpstreams);
    }
    var i := 0;
    while i < |svcs|
      invariant i <= |svcs|
      invariant FirstServiceIssue(svcs, 0, urlScheme) == FirstServiceIssue(svcs, i, urlScheme)
    {
      var issue := ServiceIssue(svcs[i], urlScheme);
      if issue.Some? {
        return Err(issue.value);
      }
      i := i + 1;
    }
    i := 0;
    while i < |svcs|
      invariant i <= |svcs|
      invariant FirstWithoutModels(svcs, 0) == FirstWithoutModels(svcs, i)
    {
      if |svcs[i].models| == 0 {
        return Err(NoModels(svcs[i].name));
      }
      i := i + 1;
    }
    var regularModels: set<bytes> := {};
    var allAliases: set<bytes> := {};
    i := 0;
    while i < |svcs|
      invariant i <= |svcs|
      invariant ModelsIssueFrom(svcs, 0) == ModelsIssueFrom(svcs, i)
      invariant regularModels == AllRegulars(svcs[..i]) && allAliases == AllAliases(svcs[..i])
    {
      var issue;
      issue, regularModels, allAliases := CheckServiceModels(svcs[i].name, svcs[i].models, regularModels, allAliases);
      if issue.Some? {
        return Err(issue.value);
      }
      assert svcs[..i + 1][..i] == svcs[..i];
      i := i + 1;
    }
    assert svcs[..i] == svcs;
    if allAliases * regularModels != {} {
      return Err(AliasConflict);
    }
    return Ok(());
  }

  // ------------------------------------------------------------------
  // Log level and templates

  function AsciiUpper(b: byte): (r: byte)
    ensures 'a' <= b <= 'z' ==> 'A' <= r <= 'Z'
    ensures !('a' <= b <= 'z') ==> r == b
  {
    if 'a' <= b <= 'z' then (b as int - 32) as char else b
  }

  function Upper(s: bytes): (r: bytes)
    ensures |r| == |s|
    ensures forall i | 0 <= i < |s| :: r[i] == AsciiUpper(s[i])
  {
    seq(|s|, i requires 0 <= i < |s| => AsciiUpper(s[i]))
  }

  const LOG_LEVELS: seq<bytes> := ["DEBUG", "INFO", "WARNING", "ERROR", "CRITICAL", "DISABLED"]

  /** `validate_log_level`: the upper-cased level is one of six names. */
  function ValidateLogLevel(level: bytes): (r: Result<(), ConfigIssue>)
    ensures r.Ok? <==> Upper(level) in LOG_LEVELS
  {
    if Upper(level) in LOG_LEVELS then Ok(()) else Err(BadLogLevel)
  }

  predicate UpperOnly(v: bytes) { forall k | 0 <= k < |v| :: !('a' <= v[k] <= 'z') }

  lemma UpperIffIgnoreCase(level: bytes, v: bytes)
    requires UpperOnly(v)
    ensures Upper(level) == v <==> EqIgnoreCase(level, v)
  {
    if |level| == |v| {
      if EqIgnoreCase(level, v) {
        forall k | 0 <= k < |v| ensures Upper(level)[k] == v[k] {
          assert AsciiLower(level[k]) == AsciiLower(v[k]);
        }
      }
      if Upper(level) == v {
        forall k | 0 <= k < |v| ensures AsciiLower(level[k]) == AsciiLower(v[k]) {
          assert AsciiUpper(level[k]) == v[k];
        }
      }
    }
  }

  /** The log level is matched ignoring ASCII case. */
  lemma LogLevelIgnoresCase(level: bytes)
    ensures ValidateLogLevel(level).Ok? <==> exists k | 0 <= k < |LOG_LEVELS| :: EqIgnoreCase(level, LOG_LEVELS[k])
  {
    forall k | 0 <= k < |LOG_LEVELS| ensures Upper(level) == LOG_LEVELS[k] <==> EqIgnoreCase(level, LOG_LEVELS[k]) {
      UpperIffIgnoreCase(level, LOG_LEVELS[k]);
    }
  }

  /** `validate_prompt_templates`: a custom prompt template names both of
      its placeholders, and so does a custom retry template. */
  function ValidatePromptTemplates(f: FeaturesConfig): (r: Result<(), ConfigIssue>)
    ensures r.Ok? <==> ((f.promptTemplate.None? ||
                         (Contains(f.promptTemplate.value, "{tools_list}") && Contains(f.promptTemplate.value, "{trigger_signal}")))
                        && (f.fcErrorRetryPromptTemplate.None? ||
                            (Contains(f.fcErrorRetryPromptTemplate.value, "{error_details}")
                             && Contains(f.fcErrorRetryPromptTemplate.value, "{original_response}"))))
  {
    if f.promptTemplate.Some? &&
       (!Contains(f.promptTemplate.value, "{tools_list}") || !Contains(f.promptTemplate.value, "{trigger_signal}"))
    then Err(BadPromptTemplate)
    else if f.fcErrorRetryPromptTemplate.Some? &&
       (!Contains(f.fcErrorRetryPromptTemplate.value, "{error_details}")
        || !Contains(f.fcErrorRetryPromptTemplate.value, "{original_response}"))
    then Err(BadRetryTemplate)
    else Ok(())
  }

  // ------------------------------------------------------------------
  // The whole configuration

  /** `validate_config`: server, keys, services, log level, templates, in
      that order; the first failing group's issue is returned. */
  function ValidateConfig(c: AppConfig, urlScheme: UrlScheme): (r: Result<(), ConfigIssue>)
    ensures r.Ok? <==> (ValidateServerConfig(c.server).Ok? && ValidateAllowedKeys(c.allowedKeys).Ok?
                        && UpstreamServicesVerdict(c.upstreamServices, urlScheme).Ok?
                        && ValidateLogLevel(c.features.logLevel).Ok? && ValidatePromptTemplates(c.features).Ok?)
    ensures ValidateServerConfig(c.server).Err? ==> r == ValidateServerConfig(c.server)
  {
    var _ :- ValidateServerConfig(c.server);
    var _ :- ValidateAllowedKeys(c.allowedKeys);
    var _ :- UpstreamServicesVerdict(c.upstreamServices, urlScheme);
    var _ :- ValidateLogLevel(c.features.logLevel);
    ValidatePromptTemplates(c.features)
  }

  /** A configuration that passes validation has keys, services with
      models, and no alias hiding a regular model name. */
  lemma ValidConfigFacts(c: AppConfig, urlScheme: UrlScheme)
    requires ValidateConfig(c, urlScheme).Ok?
    ensures |c.allowedKeys| > 0 && forall k | 0 <= k < |c.allowedKeys| :: !Blank(c.allowedKeys[k])
    ensures ServicesValid(c.upstreamServices, urlScheme)
  {
    UpstreamServicesVerdictMeaning(c.upstreamServices, urlScheme);
  }
}
