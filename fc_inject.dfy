/** Inject mode request rewriting (`src/fc/inject.rs`): the tools leave the
    request and come back to the caller, the generated function-calling
    prompt joins the system prompt, the messages are preprocessed and the
    tool choice becomes none. Requests that turn tools off, or that ask an
    OpenAI ingress for JSON output, are left alone. */
module FcInject {
  import opened Wrappers
  import opened Bytes
  import opened JsonValue
  import opened Canonical
  import Config
  import FcPreprocess
  import FcPrompt

  // ---------------------------------------------------------------------
  // Structured output

  /** `json_object` or `json_schema`, in any ASCII case. */
  predicate IsJsonModeName(mode: bytes) {
    EqIgnoreCase(mode, "json_object") || EqIgnoreCase(mode, "json_schema")
  }

  /** `response_format_is_json_mode`: a mode name, or an object whose `type`
      is one. */
  function ResponseFormatIsJsonMode(v: Json): (r: bool)
    ensures r ==> v.Str? || (v.Object? && Get(v, "type").Some? && Get(v, "type").value.Str?)
  {
    match v
    case Str(mode) => IsJsonModeName(mode)
    case Object(_) =>
      var t := Get(v, "type");
      t.Some? && t.value.Str? && IsJsonModeName(t.value.s)
    case _ => false
  }

  lemma EqIgnoreCaseTrans(a: bytes, b: bytes, c: bytes)
    requires EqIgnoreCase(a, b) && EqIgnoreCase(b, c)
    ensures EqIgnoreCase(a, c)
  {
  }

  /** The mode names are compared without regard to ASCII case. */
  lemma JsonModeIgnoresCase(a: bytes, b: bytes)
    requires EqIgnoreCase(a, b)
    ensures ResponseFormatIsJsonMode(Str(a)) == ResponseFormatIsJsonMode(Str(b))
    ensures ResponseFormatIsJsonMode(Object([("type", Str(a))])) == ResponseFormatIsJsonMode(Object([("type", Str(b))]))
  {
    assert EqIgnoreCase(b, a);
    if EqIgnoreCase(a, "json_object") { EqIgnoreCaseTrans(b, a, "json_object"); }
    if EqIgnoreCase(b, "json_object") { EqIgnoreCaseTrans(a, b, "json_object"); }
    if EqIgnoreCase(a, "json_schema") { EqIgnoreCaseTrans(b, a, "json_schema"); }
    if EqIgnoreCase(b, "json_schema") { EqIgnoreCaseTrans(a, b, "json_schema"); }
  }

  /** `responses_text_format_is_json_mode`: `text.format` is a JSON mode. */
  function ResponsesTextFormatIsJsonMode(v: Json): (r: bool)
    ensures r ==> v.Object?
  {
    var f := Get(v, "format");
    f.Some? && ResponseFormatIsJsonMode(f.value)
  }

  /** The request's provider extensions, empty when there are none. */
  function Extensions(req: Request): seq<(bytes, Json)> {
    req.extensions.GetOr([])
  }

  /** `request_prefers_structured_output`: only the two OpenAI ingresses
      look, Chat at `response_format`, Responses also at `text.format`. */
  predicate PrefersStructuredOutput(req: Request)
    ensures PrefersStructuredOutput(req) ==> req.ingress.OpenAiChat? || req.ingress.OpenAiResponses?
  {
    var rf := Lookup(Extensions(req), "response_format");
    var text := Lookup(Extensions(req), "text");
    match req.ingress
    case OpenAiChat => rf.Some? && ResponseFormatIsJsonMode(rf.value)
    case OpenAiResponses =>
      (rf.Some? && ResponseFormatIsJsonMode(rf.value))
      || (text.Some? && ResponsesTextFormatIsJsonMode(text.value))
    case _ => false
  }

  // ---------------------------------------------------------------------
  // Injection

  /** The system prompt after injection: the existing one, a newline and
      the generated prompt, or the generated prompt alone. */
  function JoinedSystemPrompt(existing: Option<bytes>, prompt: bytes): (r: bytes)
    ensures existing.None? ==> r == prompt
    ensures existing.Some? ==> StartsWith(r, existing.value + "\n") && |r| == |existing.value| + 1 + |prompt|
    ensures EndsWith(r, prompt)
  {
    var r := if existing.Some? then existing.value + "\n" + prompt else prompt;
    assert r[|r| - |prompt|..] == prompt;
    r
  }

  /** Whether injection leaves the request alone. */
  predicate Skips(req: Request) {
    PrefersStructuredOutput(req) || req.toolChoice.NoTools?
  }

  /** What `apply_fc_inject_take_tools` gives back and leaves in the request,
      with prompt generation uncached. The tools are taken out before the
      prompt is generated, so a failing tool schema leaves the request
      without tools and otherwise unchanged. */
  function InjectOutcome(req: Request, template: Option<bytes>, setup: FcPrompt.PromptSetup,
                         detail: FcPrompt.ParamDetail): (Result<seq<ToolSpec>, FcPrompt.PromptError>, Request)
  {
    if Skips(req) then (Ok([]), req)
    else
      match FcPrompt.UncachedPrompt(req.tools, req.toolChoice, template, setup, detail)
      case Err(e) => (Err(e), req.(tools := []))
      case Ok(prompt) =>
        (Ok(req.tools),
         req.(tools := [],
              systemPrompt := Some(JoinedSystemPrompt(req.systemPrompt, prompt)),
              messages := FcPreprocess.Preprocessed(setup.trigger, req.messages),
              toolChoice := NoTools))
  }

  /** A skipped request comes back as it was with no tools taken; otherwise
      the tools are handed back exactly, and the request loses its tools and
      its tool choice and keeps its ingress, model, streaming flag and
      extensions. */
  lemma InjectOutcomeShape(req: Request, template: Option<bytes>, setup: FcPrompt.PromptSetup,
                           detail: FcPrompt.ParamDetail)
    ensures var (r, after) := InjectOutcome(req, template, setup, detail);
      (Skips(req) ==> r == Ok([]) && after == req)
      && (!Skips(req) ==>
            (r.Ok? ==> r.value == req.tools && after.toolChoice == NoTools
                       && |after.messages| == |req.messages|)
            && (r.Err? <==> FcPrompt.UncachedPrompt(req.tools, req.toolChoice, template, setup, detail).Err?)
            && after.tools == []
            && after.ingress == req.ingress && after.model == req.model
            && after.stream == req.stream && after.extensions == req.extensions)
  {
  }

  /** A request that went through injection successfully is left alone by
      a second one: its tool choice is none. */
  lemma InjectIdempotent(req: Request, template: Option<bytes>, setup: FcPrompt.PromptSetup,
                         detail: FcPrompt.ParamDetail)
    requires InjectOutcome(req, template, setup, detail).0.Ok?
    ensures var after := InjectOutcome(req, template, setup, detail).1;
      InjectOutcome(after, template, setup, detail) == (Ok([]), after)
  {
  }

  /** After a successful injection the system prompt names every tool that
      was taken, provided a custom template has the tool-list placeholder. */
  lemma InjectedPromptNamesTools(req: Request, template: Option<bytes>, setup: FcPrompt.PromptSetup,
                                 detail: FcPrompt.ParamDetail, i: nat)
    requires template.Some? ==> Contains(template.value, FcPrompt.TOOLS_LIST_SLOT)
    requires InjectOutcome(req, template, setup, detail).0.Ok?
    requires i < |InjectOutcome(req, template, setup, detail).0.value|
    ensures var (r, after) := InjectOutcome(req, template, setup, detail);
      after.systemPrompt.Some? && Contains(after.systemPrompt.value, FcPrompt.ToolTag(r.value[i].name))
  {
    var prompt := FcPrompt.UncachedPrompt(req.tools, req.toolChoice, template, setup, detail).value;
    var tag := FcPrompt.ToolTag(req.tools[i].name);
    FcPrompt.PromptNamesEveryTool(req.tools, req.toolChoice, template, setup, detail, i);
    if req.systemPrompt.Some? {
      ContainsAfterPrefix(req.systemPrompt.value + "\n", prompt, tag);
    }
  }

  /** After a successful injection the system prompt carries the trigger
      signal the model is told to emit before calling a function. */
  lemma InjectedPromptCarriesTrigger(req: Request, template: Option<bytes>, setup: FcPrompt.PromptSetup,
                                     detail: FcPrompt.ParamDetail)
    requires FcPrompt.ValidSetup(setup)
    requires template.Some? ==> Contains(template.value, FcPrompt.TRIGGER_SLOT)
    requires !Skips(req) && InjectOutcome(req, template, setup, detail).0.Ok?
    ensures var after := InjectOutcome(req, template, setup, detail).1;
      after.systemPrompt.Some? && Contains(after.systemPrompt.value, setup.trigger)
  {
    var list := FcPrompt.ToolsListText(req.tools, detail).value;
    var text := FcPrompt.TemplateText(template, setup, list);
    var prompt := FcPrompt.UncachedPrompt(req.tools, req.toolChoice, template, setup, detail).value;
    assert prompt == text + FcPrompt.ChoiceSuffix(req.toolChoice);
    FcPrompt.PromptContainsTrigger(template, setup, list);
    FcPrompt.ContainsBeforeSuffix(text, FcPrompt.ChoiceSuffix(req.toolChoice), setup.trigger);
    if req.systemPrompt.Some? {
      ContainsAfterPrefix(req.systemPrompt.value + "\n", prompt, setup.trigger);
    }
  }

  /** `apply_fc_inject_take_tools` on a request held by the caller: `req`
      is the request before, `after` the request after. The prompt comes
      from the process-wide cache; with a faithful cache the outcome is
      exactly `InjectOutcome`. */
  method ApplyFcInjectTakeTools(req: Request, features: Config.FeaturesConfig, cache: FcPrompt.PromptCache,
                                setup: FcPrompt.PromptSetup, detail: FcPrompt.ParamDetail,
                                encode: bytes -> bytes)
    returns (r: Result<seq<ToolSpec>, FcPrompt.PromptError>, after: Request)
    modifies cache
    ensures Skips(req) ==> r == Ok([]) && after == req
    ensures r.Err? ==> after == req.(tools := [])
    ensures !Skips(req) && r.Ok? ==>
      r.value == req.tools && after.tools == [] && after.toolChoice == NoTools
      && after.messages == FcPreprocess.Preprocessed(setup.trigger, req.messages)
      && after.systemPrompt.Some? && StartsWith(after.systemPrompt.value, req.systemPrompt.GetOr([]))
      && after == req.(tools := [], systemPrompt := after.systemPrompt, messages := after.messages,
                       toolChoice := NoTools)
    ensures old(cache.Valid()) ==> cache.Valid()
    ensures old(cache.Faithful(setup, detail, encode)) ==>
      cache.Faithful(setup, detail, encode)
      && (r, after) == InjectOutcome(req, features.promptTemplate, setup, detail)
  {
    after := req;
    if PrefersStructuredOutput(after) {
      return Ok([]), after;
    }
    if after.toolChoice.NoTools? {
      return Ok([]), after;
    }
    var savedTools := after.tools;
    after := after.(tools := []);
    var key := FcPrompt.CacheKey(savedTools, after.toolChoice, features.promptTemplate);
    var prompt := cache.GeneratePrompt(key, setup, detail, encode);
    if prompt.Err? {
      return Err(prompt.error), after;
    }
    after := after.(systemPrompt := Some(JoinedSystemPrompt(after.systemPrompt, prompt.value)));
    var messages := FcPreprocess.PreprocessMessagesOwned(after.messages, setup.trigger);
    after := after.(messages := messages);
    after := after.(toolChoice := NoTools);
    r := Ok(savedTools);
    if req.systemPrompt.Some? {
      assert StartsWith(req.systemPrompt.value + "\n", req.systemPrompt.value);
    }
  }
}
