/** The cached `/v1/models` listing (`src/state/models_cache.rs`): which
    model ids each upstream makes visible and who owns them, the URL an
    upstream's model list is fetched from, how fetched ids are normalised,
    and the refresh gate that lets one refresh run at a time. */
module ModelList {
  import opened Wrappers
  import opened Bytes
  import opened Ints
  import opened JsonValue
  import C = Config
  import D = Dispatch

  // ------------------------------------------------------------------
  // The refresh gate

  /** `ModelsCache`: the rendered body and the refresh schedule. */
  class ModelsCache {
    var body: bytes
    const ttlSecs: u64
    var nextRefreshUnix: u64
    var refreshing: bool

    /** `ModelsCache::new`: due at once, nothing in flight. */
    constructor (initialBody: bytes, ttlSecs: u64)
      ensures body == initialBody && this.ttlSecs == ttlSecs
      ensures nextRefreshUnix == 0 && !refreshing
    {
      body := initialBody;
      this.ttlSecs := ttlSecs;
      nextRefreshUnix := 0;
      refreshing := false;
    }

    /** A refresh may begin at `now`: refreshing is enabled, the deadline
        has passed and no refresh is in flight. */
    predicate Admits(now: u64)
      reads this
    {
      ttlSecs > 0 && nextRefreshUnix <= now && !refreshing
    }

    /** `set_body`: replaces the served listing. */
    method SetBody(b: bytes)
      modifies this
      ensures body == b
      ensures nextRefreshUnix == old(nextRefreshUnix) && refreshing == old(refreshing)
    {
      body := b;
    }

    /** `try_begin_refresh`: succeeds exactly when the gate admits `now`;
        then the next deadline is `now + ttl` (saturating) and the refresh
        is in flight, so no other caller gets through until it finishes. */
    method TryBeginRefresh(now: u64) returns (r: bool)
      modifies this
      ensures r == old(Admits(now))
      ensures r ==> refreshing && nextRefreshUnix == SaturatingAdd(now, ttlSecs)
      ensures r ==> forall t: u64 :: !Admits(t)
      ensures !r ==> nextRefreshUnix == old(nextRefreshUnix) && refreshing == old(refreshing)
      ensures body == old(body)
    {
      if ttlSecs == 0 {
        return false;
      }
      var next := nextRefreshUnix;
      if now < next {
        return false;
      }
      var was := refreshing;
      refreshing := true;
      if was {
        return false;
      }
      nextRefreshUnix := SaturatingAdd(now, ttlSecs);
      r := true;
    }

    /** `finish_refresh`: the refresh is no longer in flight; the deadline
        set when it began stays. */
    method FinishRefresh()
      modifies this
      ensures !refreshing
      ensures nextRefreshUnix == old(nextRefreshUnix) && body == old(body)
      ensures forall t: u64 :: Admits(t) <==> ttlSecs > 0 && nextRefreshUnix <= t
    {
      refreshing := false;
    }
  }

  // ------------------------------------------------------------------
  // Visible models from the configuration

  /** `model_name.split(':').next()`: the text before the first `:`. */
  function VisibleId(model: bytes): (r: bytes)
    ensures r <= model
    ensures forall k | 0 <= k < |r| :: r[k] != ':'
    ensures |r| < |model| ==> model[|r|] == ':'
  {
    match FindByte(model, ':', 0)
    case Some(i) => model[..i]
    case None => model
  }

  /** The visible ids of a list of configured model names. */
  function VisibleIds(models: seq<bytes>): set<bytes> {
    if |models| == 0 then {} else {VisibleId(models[0])} + VisibleIds(models[1..])
  }

  /** Entering each model's visible id, keeping an owner already present
      (`entry(..).or_insert_with(..)`). */
  function InsertVisible(visible: map<bytes, bytes>, models: seq<bytes>, owner: bytes): map<bytes, bytes>
    decreases |models|
  {
    if |models| == 0 then visible
    else
      var id := VisibleId(models[0]);
      InsertVisible(if id in visible then visible else visible[id := owner], models[1..], owner)
  }

  /** Inserting adds exactly the visible ids of the models, owned by
      `owner`, and leaves every id already present with its owner. */
  lemma {:induction false} InsertVisibleMeaning(visible: map<bytes, bytes>, models: seq<bytes>, owner: bytes)
    ensures InsertVisible(visible, models, owner).Keys == visible.Keys + VisibleIds(models)
    ensures forall id | id in visible :: InsertVisible(visible, models, owner)[id] == visible[id]
    ensures forall id | id in InsertVisible(visible, models, owner) && id !in visible ::
              InsertVisible(visible, models, owner)[id] == owner
    decreases |models|
  {
    if |models| > 0 {
      var id := VisibleId(models[0]);
      var next := if id in visible then visible else visible[id := owner];
      InsertVisibleMeaning(next, models[1..], owner);
    }
  }

  /** `insert_config_visible_models`. */
  method InsertConfigVisibleModels(visible: map<bytes, bytes>, service: C.UpstreamServiceConfig)
    returns (r: map<bytes, bytes>)
    ensures r == InsertVisible(visible, service.models, service.name)
  {
    r := visible;
    var i := 0;
    while i < |service.models|
      invariant 0 <= i <= |service.models|
      invariant InsertVisible(r, service.models[i..], service.name) == InsertVisible(visible, service.models, service.name)
    {
      assert service.models[i..][1..] == service.models[i + 1..];
      var id := VisibleId(service.models[i]);
      if id !in r {
        r := r[id := service.name];
      }
      i := i + 1;
    }
    assert service.models[i..] == [];
  }

  /** The services' visible models entered in configuration order. */
  function ConfigVisible(acc: map<bytes, bytes>, services: seq<C.UpstreamServiceConfig>): map<bytes, bytes>
    decreases |services|
  {
    if |services| == 0 then acc
    else ConfigVisible(InsertVisible(acc, services[0].models, services[0].name), services[1..])
  }

  /** `build_visible_models_from_config`. */
  method BuildVisibleModelsFromConfig(services: seq<C.UpstreamServiceConfig>) returns (r: map<bytes, bytes>)
    ensures r == ConfigVisible(map[], services)
  {
    r := map[];
    var i := 0;
    while i < |services|
      invariant 0 <= i <= |services|
      invariant ConfigVisible(r, services[i..]) == ConfigVisible(map[], services)
    {
      assert services[i..][1..] == services[i + 1..];
      r := InsertConfigVisibleModels(r, services[i]);
      i := i + 1;
    }
    assert services[i..] == [];
  }

  /** An id already present keeps its owner through later services. */
  lemma {:induction false} ConfigVisibleKeeps(acc: map<bytes, bytes>, services: seq<C.UpstreamServiceConfig>, id: bytes)
    requires id in acc
    ensures id in ConfigVisible(acc, services) && ConfigVisible(acc, services)[id] == acc[id]
    decreases |services|
  {
    if |services| > 0 {
      InsertVisibleMeaning(acc, services[0].models, services[0].name);
      ConfigVisibleKeeps(InsertVisible(acc, services[0].models, services[0].name), services[1..], id);
    }
  }

  /** The first service that lists an id owns it. */
  lemma {:induction false} FirstServiceOwns(acc: map<bytes, bytes>, services: seq<C.UpstreamServiceConfig>, id: bytes, j: nat)
    requires id !in acc && j < |services| && id in VisibleIds(services[j].models)
    requires forall i | 0 <= i < j :: id !in VisibleIds(services[i].models)
    ensures id in ConfigVisible(acc, services) && ConfigVisible(acc, services)[id] == services[j].name
    decreases |services|
  {
    var next := InsertVisible(acc, services[0].models, services[0].name);
    InsertVisibleMeaning(acc, services[0].models, services[0].name);
    if j == 0 {
      ConfigVisibleKeeps(next, services[1..], id);
    } else {
      assert id !in VisibleIds(services[0].models);
      FirstServiceOwns(next, services[1..], id, j - 1);
    }
  }

  /** Only ids that some service lists become visible. */
  lemma {:induction false} ConfigVisibleKeys(acc: map<bytes, bytes>, services: seq<C.UpstreamServiceConfig>, id: bytes)
    requires id in ConfigVisible(acc, services)
    ensures id in acc || exists j | 0 <= j < |services| :: id in VisibleIds(services[j].models)
    decreases |services|
  {
    if |services| > 0 {
      var next := InsertVisible(acc, services[0].models, services[0].name);
      InsertVisibleMeaning(acc, services[0].models, services[0].name);
      ConfigVisibleKeys(next, services[1..], id);
      if id !in next {
        var j :| 0 <= j < |services[1..]| && id in VisibleIds(services[1..][j].models);
        assert id in VisibleIds(services[j + 1].models);
      }
    }
  }

  /** Two services that both list one id under different suffixes (as
      `gpt-4:o1` and `gpt-4:o2`) beside one id each: the listing has three
      ids and the first service owns the shared one. */
  lemma SharedIdOwnedByFirstService(one: C.UpstreamServiceConfig, two: C.UpstreamServiceConfig,
                                    shared: bytes, s1: bytes, s2: bytes, own1: bytes, own2: bytes)
    requires NoColon(shared) && NoColon(own1) && NoColon(own2)
    requires one.models == [shared + ":" + s1, own1] && two.models == [shared + ":" + s2, own2]
    ensures ConfigVisible(map[], [one, two]).Keys == {shared, own1, own2}
    ensures ConfigVisible(map[], [one, two])[shared] == one.name
  {
    VisibleIdAtColon(shared, s1);
    VisibleIdAtColon(shared, s2);
    VisibleIdAtColon(own1, []);
    VisibleIdAtColon(own2, []);
    VisibleIdsPair(one.models);
    VisibleIdsPair(two.models);
    var first := InsertVisible(map[], one.models, one.name);
    InsertVisibleMeaning(map[], one.models, one.name);
    InsertVisibleMeaning(first, two.models, two.name);
    assert [one, two][1..] == [two] && [two][1..] == [];
    assert ConfigVisible(map[], [one, two]) == ConfigVisible(first, [two]);
    assert ConfigVisible(first, [two]) == ConfigVisible(InsertVisible(first, two.models, two.name), []);
  }

  predicate NoColon(s: bytes) { forall k | 0 <= k < |s| :: s[k] != ':' }

  lemma VisibleIdsPair(models: seq<bytes>)
    requires |models| == 2
    ensures VisibleIds(models) == {VisibleId(models[0]), VisibleId(models[1])}
  {
    assert models[1..][0] == models[1] && models[1..][1..] == [];
    assert VisibleIds(models[1..]) == {VisibleId(models[1])} + VisibleIds([]);
  }

  /** The visible id of `name:rest`, or of `name` alone when `rest` is empty
      and `name` has no colon. */
  lemma VisibleIdAtColon(name: bytes, rest: bytes)
    requires NoColon(name)
    ensures VisibleId(name + ":" + rest) == name
    ensures VisibleId(name) == name
  {
    var m := name + ":" + rest;
    assert m[|name|] == ':';
    assert m[..|name|] == name;
  }

  // ------------------------------------------------------------------
  // Fetching an upstream's model list

  const CHAT_COMPLETIONS: bytes := "/chat/completions"
  const RESPONSES: bytes := "/responses"
  const MESSAGES: bytes := "/messages"
  const MODELS: bytes := "/models"

  /** The endpoint root of a base URL: trailing slashes and one known
      endpoint suffix removed. */
  function ModelsRoot(baseUrl: bytes): (r: bytes)
    ensures r <= D.TrimEndByte(baseUrl, '/')
  {
    var trimmed := D.TrimEndByte(baseUrl, '/');
    if EndsWith(trimmed, CHAT_COMPLETIONS) then trimmed[..|trimmed| - |CHAT_COMPLETIONS|]
    else if EndsWith(trimmed, RESPONSES) then trimmed[..|trimmed| - |RESPONSES|]
    else if EndsWith(trimmed, MESSAGES) then trimmed[..|trimmed| - |MESSAGES|]
    else trimmed
  }

  /** `build_models_url`: the endpoint root followed by `/models`. */
  function BuildModelsUrl(baseUrl: bytes): (r: bytes)
    ensures EndsWith(r, MODELS)
    ensures r[..|r| - |MODELS|] <= D.TrimEndByte(baseUrl, '/')
  {
    var root := ModelsRoot(baseUrl);
    assert (root + MODELS)[..|root|] == root;
    root + MODELS
  }

  /** Appending slashes leaves what `trim_end_matches('/')` yields unchanged
      when the text itself does not end in one. */
  lemma {:induction false} TrimEndSlashes(s: bytes, slashes: nat)
    requires |s| == 0 || s[|s| - 1] != '/'
    ensures D.TrimEndByte(s + seq(slashes, _ => '/'), '/') == s
    decreases slashes
  {
    if slashes > 0 {
      var t := s + seq(slashes, _ => '/');
      assert t[..|t| - 1] == s + seq(slashes - 1, _ => '/');
      TrimEndSlashes(s, slashes - 1);
    }
  }

  /** A text ending in `q` cannot end in a longer `p` that does not itself
      end in `q`. */
  lemma SuffixClash(x: bytes, p: bytes, q: bytes)
    requires EndsWith(x, q) && |q| <= |p| && !EndsWith(p, q)
    ensures !EndsWith(x, p)
  {
    if |p| <= |x| {
      assert x[|x| - |q|..] == x[|x| - |p|..][|p| - |q|..];
    }
  }

  /** A base URL that already names an endpoint (with any number of
      trailing slashes) lists models beside it. */
  lemma ModelsUrlOfEndpoint(root: bytes, endpoint: bytes, slashes: nat)
    requires endpoint == CHAT_COMPLETIONS || endpoint == RESPONSES || endpoint == MESSAGES
    ensures BuildModelsUrl(root + endpoint + seq(slashes, _ => '/')) == root + MODELS
  {
    var s := root + endpoint;
    TrimEndSlashes(s, slashes);
    assert s[|s| - |endpoint|..] == endpoint;
    assert s[..|s| - |endpoint|] == root;
    assert CHAT_COMPLETIONS[|CHAT_COMPLETIONS| - |RESPONSES|..][0] != RESPONSES[0];
    assert CHAT_COMPLETIONS[|CHAT_COMPLETIONS| - |MESSAGES|..][0] != MESSAGES[0];
    assert RESPONSES[|RESPONSES| - |MESSAGES|..][0] != MESSAGES[0];
    if endpoint == RESPONSES {
      SuffixClash(s, CHAT_COMPLETIONS, RESPONSES);
    } else if endpoint == MESSAGES {
      SuffixClash(s, CHAT_COMPLETIONS, MESSAGES);
      SuffixClash(s, RESPONSES, MESSAGES);
    }
  }

  /** Any other base URL lists models below itself, trailing slashes
      removed. */
  lemma ModelsUrlOfBase(baseUrl: bytes)
    requires var t := D.TrimEndByte(baseUrl, '/');
             !EndsWith(t, CHAT_COMPLETIONS) && !EndsWith(t, RESPONSES) && !EndsWith(t, MESSAGES)
    ensures BuildModelsUrl(baseUrl) == D.TrimEndByte(baseUrl, '/') + MODELS
  {
  }

  /** The text a fetched id keeps from a Gemini-style `models/` name. */
  function StripModelsPrefix(t: bytes): (r: bytes)
    ensures r <= t || (StartsWith(t, "models/") && r == t[7..])
  {
    if StartsWith(t, "models/") then t[7..] else t
  }

  /** `name:action` keeps only `name` when the action is a Gemini
      generation method; the split is at the first `:`. */
  function StripGenerateAction(m: bytes): (r: bytes)
    ensures r <= m
  {
    match FindByte(m, ':', 0)
    case Some(i) =>
      var action := m[i + 1..];
      if action == "generateContent" || action == "streamGenerateContent" then m[..i] else m
    case None => m
  }

  /** `normalize_model_id`: trimmed, `models/` and a generation action
      removed; None when nothing is left. */
  function NormalizeModelId(raw: bytes): (r: Option<bytes>)
    ensures r.Some? ==> |r.value| > 0
    ensures Blank(raw) ==> r.None?
    ensures r.Some? ==> r.value <= StripModelsPrefix(Trim(raw))
  {
    BlankIsTrimEmpty(raw);
    var t := Trim(raw);
    if |t| == 0 then None
    else
      var m := StripGenerateAction(StripModelsPrefix(t));
      if |m| == 0 then None else Some(m)
  }

  /** An id that is already plain comes back unchanged. */
  lemma NormalizePlainId(id: bytes)
    requires |id| > 0 && !IsTrimWs(id[0]) && !IsTrimWs(id[|id| - 1])
    requires !StartsWith(id, "models/") && forall k | 0 <= k < |id| :: id[k] != ':'
    ensures NormalizeModelId(id) == Some(id)
  {
    TrimUnchanged(id);
  }

  /** A Gemini resource name with a generation action normalises to the
      bare model name. */
  lemma NormalizeGeminiName(name: bytes, action: bytes)
    requires action == "generateContent" || action == "streamGenerateContent"
    requires |name| > 0 && forall k | 0 <= k < |name| :: name[k] != ':'
    ensures NormalizeModelId("models/" + name + ":" + action) == Some(name)
  {
    var rest := name + ":" + action;
    var raw := "models/" + rest;
    assert raw == "models/" + name + ":" + action;
    TrimUnchanged(raw);
    assert raw[..7] == "models/" && raw[7..] == rest;
    StripActionOf(name, action);
  }

  /** Text that begins and ends with a non-blank byte is its own trim. */
  lemma TrimUnchanged(s: bytes)
    requires |s| > 0 && !IsTrimWs(s[0]) && !IsTrimWs(s[|s| - 1])
    ensures Trim(s) == s
  {
    assert TrimStart(s) == s;
  }

  lemma StripActionOf(name: bytes, action: bytes)
    requires action == "generateContent" || action == "streamGenerateContent"
    requires forall k | 0 <= k < |name| :: name[k] != ':'
    ensures StripGenerateAction(name + ":" + action) == name
  {
    var rest := name + ":" + action;
    assert rest[|name|] == ':';
    assert FindByte(rest, ':', 0) == Some(|name|);
    assert rest[|name| + 1..] == action;
    assert rest[..|name|] == name;
  }

  // ------------------------------------------------------------------
  // Ids read from an upstream's model list

  const DATA: bytes := "data"
  const MODELS_FIELD: bytes := "models"
  const ID: bytes := "id"
  const NAME: bytes := "name"

  /** `get(key).and_then(Value::as_array)`, or no items. */
  function ArrayField(payload: Json, key: bytes): seq<Json> {
    match Get(payload, key)
    case Some(Array(items)) => items
    case _ => []
  }

  /** The id one listed item contributes: its `first` string field, else
      its `second`, normalised. */
  function IdOfItem(item: Json, first: bytes, second: bytes): (r: seq<bytes>)
    ensures |r| <= 1
    ensures forall k | 0 <= k < |r| :: |r[k]| > 0
  {
    var candidate := match GetStr(item, first) case Some(v) => Some(v) case None => GetStr(item, second);
    match candidate
    case None => []
    case Some(raw) =>
      match NormalizeModelId(raw)
      case Some(m) => [m]
      case None => []
  }

  /** The ids of a run of items, in order. */
  function IdsOfItems(items: seq<Json>, first: bytes, second: bytes): seq<bytes>
    decreases |items|
  {
    if |items| == 0 then []
    else IdsOfItems(items[..|items| - 1], first, second) + IdOfItem(items[|items| - 1], first, second)
  }

  /** What `extract_model_ids_from_payload` yields: OpenAI-style `data`
      items by `id` (else `name`), then Gemini-style `models` items by
      `name` (else `id`). */
  function ExtractedIds(payload: Json): seq<bytes> {
    IdsOfItems(ArrayField(payload, DATA), ID, NAME) + IdsOfItems(ArrayField(payload, MODELS_FIELD), NAME, ID)
  }

  /** No extracted id is empty. */
  lemma {:induction false} IdsOfItemsNonEmpty(items: seq<Json>, first: bytes, second: bytes)
    ensures forall k | 0 <= k < |IdsOfItems(items, first, second)| :: |IdsOfItems(items, first, second)[k]| > 0
    decreases |items|
  {
    if |items| > 0 {
      IdsOfItemsNonEmpty(items[..|items| - 1], first, second);
    }
  }

  lemma ExtractedIdsNonEmpty(payload: Json)
    ensures forall k | 0 <= k < |ExtractedIds(payload)| :: |ExtractedIds(payload)[k]| > 0
  {
    IdsOfItemsNonEmpty(ArrayField(payload, DATA), ID, NAME);
    IdsOfItemsNonEmpty(ArrayField(payload, MODELS_FIELD), NAME, ID);
  }

  /** An item whose `id` is already a plain id contributes exactly it. */
  lemma PlainItemContributesId(id: bytes)
    requires |id| > 0 && !IsTrimWs(id[0]) && !IsTrimWs(id[|id| - 1])
    requires !StartsWith(id, "models/") && forall k | 0 <= k < |id| :: id[k] != ':'
    ensures IdOfItem(Object([(ID, Str(id))]), ID, NAME) == [id]
  {
    NormalizePlainId(id);
  }

  lemma IdsOfItemsStep(items: seq<Json>, i: nat, first: bytes, second: bytes)
    requires i < |items|
    ensures forall out: seq<bytes> :: out + IdsOfItems(items[..i + 1], first, second)
              == (out + IdsOfItems(items[..i], first, second)) + IdOfItem(items[i], first, second)
  {
    assert items[..i + 1][..i] == items[..i];
  }

  /** One of the two loops of `extract_model_ids_from_payload`: appends
      the id of each item in turn. */
  method PushItemIds(out: seq<bytes>, items: seq<Json>, first: bytes, second: bytes) returns (r: seq<bytes>)
    ensures r == out + IdsOfItems(items, first, second)
  {
    r := out;
    var i := 0;
    while i < |items|
      invariant 0 <= i <= |items|
      invariant r == out + IdsOfItems(items[..i], first, second)
    {
      IdsOfItemsStep(items, i, first, second);
      r := r + IdOfItem(items[i], first, second);
      i := i + 1;
    }
    assert items[..i] == items;
  }

  /** `extract_model_ids_from_payload`. */
  method ExtractModelIdsFromPayload(payload: Json) returns (out: seq<bytes>)
    ensures out == ExtractedIds(payload)
  {
    var data := ArrayField(payload, DATA);
    var models := ArrayField(payload, MODELS_FIELD);
    out := PushItemIds([], data, ID, NAME);
    assert out == IdsOfItems(data, ID, NAME);
    out := PushItemIds(out, models, NAME, ID);
  }

  // ------------------------------------------------------------------
  // Ordered, duplicate-free listings

  /** `Ord` on strings: byte-wise lexicographic. */
  predicate LexLess(a: bytes, b: bytes)
    decreases |a|
  {
    if |a| == 0 then |b| > 0
    else if |b| == 0 then false
    else if a[0] != b[0] then a[0] < b[0]
    else LexLess(a[1..], b[1..])
  }

  lemma {:induction false} LexIrreflexive(a: bytes)
    ensures !LexLess(a, a)
    decreases |a|
  {
    if |a| > 0 {
      LexIrreflexive(a[1..]);
    }
  }

  lemma {:induction false} LexTransitive(a: bytes, b: bytes, c: bytes)
    requires LexLess(a, b) && LexLess(b, c)
    ensures LexLess(a, c)
    decreases |a|
  {
    if |a| > 0 && a[0] == b[0] && b[0] == c[0] {
      LexTransitive(a[1..], b[1..], c[1..]);
    }
  }

  lemma {:induction false} LexTotal(a: bytes, b: bytes)
    requires a != b
    ensures LexLess(a, b) || LexLess(b, a)
    decreases |a|
  {
    if |a| > 0 && |b| > 0 && a[0] == b[0] {
      assert a == [a[0]] + a[1..] && b == [b[0]] + b[1..];
      LexTotal(a[1..], b[1..]);
    }
  }

  lemma LexAsymmetric(a: bytes, b: bytes)
    ensures !(LexLess(a, b) && LexLess(b, a))
  {
    LexIrreflexive(a);
    if LexLess(a, b) && LexLess(b, a) {
      LexTransitive(a, b, a);
    }
  }

  /** Each id strictly below the next: sorted, and no id twice. */
  predicate StrictlyIncreasing(s: seq<bytes>) {
    forall i | 0 <= i < |s| - 1 :: LexLess(s[i], s[i + 1])
  }

  function Members(s: seq<bytes>): set<bytes> {
    set e | e in s
  }

  /** The head of an increasing sequence is below every later member. */
  lemma {:induction false} HeadIsLeast(s: seq<bytes>)
    requires StrictlyIncreasing(s) && |s| > 0
    ensures forall e | e in s[1..] :: LexLess(s[0], e)
    ensures s[0] !in s[1..]
    decreases |s|
  {
    LexIrreflexive(s[0]);
    if |s| > 1 {
      var t := s[1..];
      HeadIsLeast(t);
      forall e | e in t[1..] ensures LexLess(s[0], e) {
        LexTransitive(s[0], t[0], e);
      }
      assert t == [t[0]] + t[1..];
    }
  }

  /** An increasing sequence is determined by its members: the listing is
      unique. */
  lemma {:induction false} IncreasingUnique(a: seq<bytes>, b: seq<bytes>)
    requires StrictlyIncreasing(a) && StrictlyIncreasing(b) && Members(a) == Members(b)
    ensures a == b
    decreases |a|
  {
    assert |a| > 0 ==> a[0] in Members(b);
    assert |b| > 0 ==> b[0] in Members(a);
    if |a| > 0 {
      HeadIsLeast(a);
      HeadIsLeast(b);
      assert a == [a[0]] + a[1..] && b == [b[0]] + b[1..];
      LexAsymmetric(a[0], b[0]);
      assert a[0] == b[0];
      assert Members(a[1..]) == Members(a) - {a[0]};
      assert Members(b[1..]) == Members(b) - {b[0]};
      IncreasingUnique(a[1..], b[1..]);
    }
  }

  /** Inserting one id into an increasing sequence, dropping a duplicate. */
  function InsertSorted(x: bytes, s: seq<bytes>): (r: seq<bytes>)
    requires StrictlyIncreasing(s)
    ensures StrictlyIncreasing(r) && Members(r) == Members(s) + {x}
    ensures |r| > 0 && (r[0] == x || (|s| > 0 && r[0] == s[0]))
    decreases |s|
  {
    if |s| == 0 then [x]
    else if x == s[0] then s
    else if LexLess(x, s[0]) then [x] + s
    else
      LexTotal(x, s[0]);
      var t := InsertSorted(x, s[1..]);
      assert s == [s[0]] + s[1..];
      assert LexLess(s[0], t[0]);
      assert Members(s) == {s[0]} + Members(s[1..]);
      assert Members([s[0]] + t) == {s[0]} + Members(t);
      [s[0]] + t
  }

  /** `sort_unstable` followed by `dedup`. */
  function SortDedup(ids: seq<bytes>): (r: seq<bytes>)
    ensures StrictlyIncreasing(r) && Members(r) == Members(ids)
    decreases |ids|
  {
    if |ids| == 0 then []
    else
      assert ids == [ids[0]] + ids[1..];
      InsertSorted(ids[0], SortDedup(ids[1..]))
  }

  /** What a successful fetch of an upstream's model list yields: its ids
      sorted and deduplicated, or nothing when it lists none. */
  function FetchedModelIds(payload: Json): (r: Option<seq<bytes>>)
    ensures r.None? <==> |ExtractedIds(payload)| == 0
    ensures r.Some? ==> StrictlyIncreasing(r.value) && Members(r.value) == Members(ExtractedIds(payload))
    ensures r.Some? ==> forall k | 0 <= k < |r.value| :: |r.value[k]| > 0
  {
    var ids := ExtractedIds(payload);
    if |ids| == 0 then None
    else
      ExtractedIdsNonEmpty(payload);
      MembersNonEmpty(SortDedup(ids), ids);
      Some(SortDedup(ids))
  }

  lemma MembersNonEmpty(a: seq<bytes>, b: seq<bytes>)
    requires Members(a) == Members(b) && forall k | 0 <= k < |b| :: |b[k]| > 0
    ensures forall k | 0 <= k < |a| :: |a[k]| > 0
  {
    forall k | 0 <= k < |a| ensures |a[k]| > 0 {
      assert a[k] in Members(b);
    }
  }

  /** Some enumeration of a finite set of ids. */
  ghost function Enumerate(s: set<bytes>): (r: seq<bytes>)
    ensures Members(r) == s
    decreases |s|
  {
    if s == {} then []
    else
      var x :| x in s;
      var t := Enumerate(s - {x});
      assert Members([x] + t) == {x} + Members(t);
      [x] + t
  }

  /** The order `build_models_response_body_from_visible` lists a
      `BTreeMap` in: every visible id once, ascending, with its owner. */
  ghost function Listing(visible: map<bytes, bytes>): (r: seq<(bytes, bytes)>)
    ensures forall i | 0 <= i < |r| :: r[i].0 in visible && r[i].1 == visible[r[i].0]
    ensures forall i | 0 <= i < |r| - 1 :: LexLess(r[i].0, r[i + 1].0)
    ensures forall id | id in visible :: exists i | 0 <= i < |r| :: r[i].0 == id
  {
    var ids := SortDedup(Enumerate(visible.Keys));
    assert forall i | 0 <= i < |ids| :: ids[i] in Members(ids);
    var r := seq(|ids|, i requires 0 <= i < |ids| => (ids[i], visible[ids[i]]));
    assert forall i | 0 <= i < |ids| :: r[i].0 == ids[i];
    assert forall id | id in visible :: id in Members(ids);
    r
  }

  // ------------------------------------------------------------------
  // The dynamic listing

  /** The fetched ids of service `i`, None when its fetch failed or it has
      no prepared upstream. */
  function FetchedAt(fetched: seq<Option<seq<bytes>>>, i: nat): Option<seq<bytes>> {
    if i < |fetched| then fetched[i] else None
  }

  /** Entering the fetched ids that route to upstream `index`, keeping an
      owner already present. */
  function InsertRouted(visible: map<bytes, bytes>, ids: seq<bytes>, owner: bytes, index: nat,
                        routes: (bytes, nat) -> bool): map<bytes, bytes>
    decreases |ids|
  {
    if |ids| == 0 then visible
    else
      var next := if ids[0] in visible || !routes(ids[0], index) then visible else visible[ids[0] := owner];
      InsertRouted(next, ids[1..], owner, index, routes)
  }

  /** Entering only adds ids that route to the upstream, and never changes
      an owner. */
  lemma {:induction false} InsertRoutedMeaning(visible: map<bytes, bytes>, ids: seq<bytes>, owner: bytes, index: nat,
                                               routes: (bytes, nat) -> bool)
    ensures visible.Keys <= InsertRouted(visible, ids, owner, index, routes).Keys
    ensures forall id | id in visible :: InsertRouted(visible, ids, owner, index, routes)[id] == visible[id]
    ensures forall id | id in InsertRouted(visible, ids, owner, index, routes) && id !in visible ::
              id in ids && routes(id, index) && InsertRouted(visible, ids, owner, index, routes)[id] == owner
    decreases |ids|
  {
    if |ids| > 0 {
      var next := if ids[0] in visible || !routes(ids[0], index) then visible else visible[ids[0] := owner];
      InsertRoutedMeaning(next, ids[1..], owner, index, routes);
      assert ids == [ids[0]] + ids[1..];
    }
  }

  /** One service's turn: its configured models, then its fetched ids. */
  function DynamicStep(visible: map<bytes, bytes>, service: C.UpstreamServiceConfig, fetched: Option<seq<bytes>>,
                       index: nat, routes: (bytes, nat) -> bool): map<bytes, bytes>
  {
    var configured := InsertVisible(visible, service.models, service.name);
    match fetched
    case None => configured
    case Some(ids) => InsertRouted(configured, ids, service.name, index, routes)
  }

  /** The services from `i` on, in configuration order. */
  function DynamicFrom(visible: map<bytes, bytes>, services: seq<C.UpstreamServiceConfig>,
                       fetched: seq<Option<seq<bytes>>>, routes: (bytes, nat) -> bool, i: nat): map<bytes, bytes>
    decreases |services| - i
  {
    if i >= |services| then visible
    else DynamicFrom(DynamicStep(visible, services[i], FetchedAt(fetched, i), i, routes), services, fetched, routes, i + 1)
  }

  /** `build_dynamic_models_response_body`, with each upstream's fetch
      outcome given as `fetched` and the router's candidate check as
      `routes`: None unless at least one fetch succeeded. */
  method BuildDynamicVisibleModels(services: seq<C.UpstreamServiceConfig>, fetched: seq<Option<seq<bytes>>>,
                                   routes: (bytes, nat) -> bool) returns (r: Option<map<bytes, bytes>>)
    ensures r.None? <==> forall k | 0 <= k < |services| :: FetchedAt(fetched, k).None?
    ensures r.Some? ==> r.value == DynamicFrom(map[], services, fetched, routes, 0)
  {
    var visible: map<bytes, bytes> := map[];
    var anyDynamicSuccess := false;
    var index := 0;
    while index < |services|
      invariant 0 <= index <= |services|
      invariant DynamicFrom(visible, services, fetched, routes, index) == DynamicFrom(map[], services, fetched, routes, 0)
      invariant anyDynamicSuccess <==> exists k | 0 <= k < index :: FetchedAt(fetched, k).Some?
    {
      var service := services[index];
      visible := InsertConfigVisibleModels(visible, service);
      if index < |fetched| && fetched[index].Some? {
        var models := fetched[index].value;
        anyDynamicSuccess := true;
        ghost var start := visible;
        var j := 0;
        while j < |models|
          invariant 0 <= j <= |models|
          invariant InsertRouted(visible, models[j..], service.name, index, routes)
                    == InsertRouted(start, models, service.name, index, routes)
        {
          assert models[j..][1..] == models[j + 1..];
          if routes(models[j], index) && models[j] !in visible {
            visible := visible[models[j] := service.name];
          }
          j := j + 1;
        }
        assert models[j..] == [];
      }
      index := index + 1;
    }
    if !anyDynamicSuccess {
      return None;
    }
    r := Some(visible);
  }

  /** Every id of the configuration listing stays listed once fetched ids
      are merged in (an earlier upstream's fetched id may own it, though). */
  lemma {:induction false} DynamicKeepsConfigIds(cfg: map<bytes, bytes>, dyn: map<bytes, bytes>,
                                                 services: seq<C.UpstreamServiceConfig>,
                                                 fetched: seq<Option<seq<bytes>>>, routes: (bytes, nat) -> bool, i: nat)
    requires cfg.Keys <= dyn.Keys && i <= |services|
    ensures ConfigVisible(cfg, services[i..]).Keys <= DynamicFrom(dyn, services, fetched, routes, i).Keys
    decreases |services| - i
  {
    if i < |services| {
      var s := services[i];
      InsertVisibleMeaning(cfg, s.models, s.name);
      InsertVisibleMeaning(dyn, s.models, s.name);
      var configured := InsertVisible(dyn, s.models, s.name);
      if FetchedAt(fetched, i).Some? {
        InsertRoutedMeaning(configured, FetchedAt(fetched, i).value, s.name, i, routes);
      }
      assert services[i..][1..] == services[i + 1..];
      DynamicKeepsConfigIds(InsertVisible(cfg, s.models, s.name), DynamicStep(dyn, s, FetchedAt(fetched, i), i, routes),
                            services, fetched, routes, i + 1);
    }
  }
}
