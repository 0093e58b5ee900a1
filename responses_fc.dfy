/** Inject mode for the Responses ingress, on the wire request
    (`src/api/ingress/openai_responses/fc.rs`): the tool choice and the
    tools are read off the wire, function tools leave the request and come
    back to the caller, the generated prompt joins the instructions, and the
    input items that carry tool calls and their outputs become plain
    messages. */
module ResponsesFc {
  import opened Wrappers
  import opened Bytes
  import opened JsonValue
  import C = Canonical
  import FcInject
  import FcPreprocess
  import FcPrompt
  import FcParser

  // ---------------------------------------------------------------------
  // The tools token

  /** `responses_tools_token_has_function`, given what parsing the token as
      an array of objects with an optional string `type` gave (None when it
      did not parse). A token that does not parse counts as having a
      function, so that function calling is never skipped by mistake. */
  function ToolsTokenHasFunction(parsed: Option<seq<Option<bytes>>>): (r: bool)
    ensures parsed.None? ==> r
    ensures parsed.Some? ==> (r <==> exists k | 0 <= k < |parsed.value| :: parsed.value[k] == Some("function"))
  {
    match parsed
    case None => true
    case Some(types) => AnyFunctionType(types)
  }

  function AnyFunctionType(types: seq<Option<bytes>>): (r: bool)
    ensures r <==> exists k | 0 <= k < |types| :: types[k] == Some("function")
  {
    if types == [] then false
    else types[0] == Some("function") || AnyFunctionType(types[1..])
  }

  // ---------------------------------------------------------------------
  // Tool choice

  /** An `allowed_tools` choice in `required` mode (a missing or non-string
      mode reads as `auto`). */
  predicate AllowedToolsRequired(obj: Json) {
    GetStr(obj, "type") == Some("allowed_tools") && GetStr(obj, "mode").GetOr("auto") == "required"
  }

  /** The name of the one tool an `allowed_tools` choice lists, when it lists
      exactly one and that one is a function with a string name. */
  function SingleAllowedFunction(obj: Json): Option<bytes> {
    var tools := Get(obj, "tools");
    if tools.Some? && tools.value.Array? && |tools.value.items| == 1
       && tools.value.items[0].Object? && GetStr(tools.value.items[0], "type") == Some("function")
    then GetStr(tools.value.items[0], "name")
    else None
  }

  /** `decode_responses_wire_tool_choice`. Only the string `none` turns tools
      off; `required`, or an `allowed_tools` choice in required mode that
      does not single out one function, requires a call; a single function
      (allowed or named) is specific; everything else is auto. */
  function DecodeToolChoice(choice: Option<Json>): (r: C.ToolChoice)
    ensures choice.None? ==> r == C.Auto
    ensures r == C.NoTools <==> choice == Some(Str("none"))
    ensures r == C.Required <==>
      (choice == Some(Str("required"))
       || (choice.Some? && choice.value.Object? && AllowedToolsRequired(choice.value)
           && SingleAllowedFunction(choice.value).None?))
    ensures r.Specific? ==>
      choice.Some? && choice.value.Object?
      && ((AllowedToolsRequired(choice.value) && SingleAllowedFunction(choice.value) == Some(r.name))
          || (GetStr(choice.value, "type") == Some("function") && GetStr(choice.value, "name") == Some(r.name)))
  {
    match choice
    case None => C.Auto
    case Some(v) =>
      match v
      case Str(mode) =>
        if mode == "none" then C.NoTools
        else if mode == "required" then C.Required
        else C.Auto
      case Object(_) =>
        if AllowedToolsRequired(v) then
          (match SingleAllowedFunction(v)
           case Some(name) => C.Specific(name)
           case None => C.Required)
        else if GetStr(v, "type") == Some("function") then
          (match GetStr(v, "name")
           case Some(name) => C.Specific(name)
           case None => C.Auto)
        else C.Auto
      case _ => C.Auto
  }

  /** An `allowed_tools` choice in required mode that lists one function
      names it; with two tools listed it only requires a call. */
  lemma AllowedSingleFunction(name: bytes, other: Json)
    ensures DecodeToolChoice(Some(Object([("type", Str("allowed_tools")), ("mode", Str("required")),
      ("tools", Array([Object([("type", Str("function")), ("name", Str(name))])]))]))) == C.Specific(name)
    ensures DecodeToolChoice(Some(Object([("type", Str("allowed_tools")), ("mode", Str("required")),
      ("tools", Array([Object([("type", Str("function")), ("name", Str(name))]), other]))]))) == C.Required
  {
    var tool := Object([("type", Str("function")), ("name", Str(name))]);
    LookupPast("type", Str("function"), [("name", Str(name))], "name");
    var one := Object([("type", Str("allowed_tools")), ("mode", Str("required")), ("tools", Array([tool]))]);
    LookupPast("type", Str("allowed_tools"), [("mode", Str("required")), ("tools", Array([tool]))], "mode");
    LookupPast("type", Str("allowed_tools"), [("mode", Str("required")), ("tools", Array([tool]))], "tools");
    LookupPast("mode", Str("required"), [("tools", Array([tool]))], "tools");
    assert SingleAllowedFunction(one) == Some(name);
    var two := Object([("type", Str("allowed_tools")), ("mode", Str("required")), ("tools", Array([tool, other]))]);
    LookupPast("type", Str("allowed_tools"), [("mode", Str("required")), ("tools", Array([tool, other]))], "mode");
    LookupPast("type", Str("allowed_tools"), [("mode", Str("required")), ("tools", Array([tool, other]))], "tools");
    LookupPast("mode", Str("required"), [("tools", Array([tool, other]))], "tools");
    assert SingleAllowedFunction(two).None?;
  }

  /** A lookup passes over a member with another key. */
  lemma LookupPast(k: bytes, v: Json, rest: seq<(bytes, Json)>, key: bytes)
    requires |k| >= 2 && |key| >= 2 && (k[0] != key[0] || k[1] != key[1])
    ensures Lookup([(k, v)] + rest, key) == Lookup(rest, key)
  {
    assert ([(k, v)] + rest)[1..] == rest;
  }

  // ---------------------------------------------------------------------
  // Tools

  /** `ResponsesTool`: a function tool, or a built-in tool passed through
      untouched (its fields are not read here). */
  datatype ResponsesTool =
    | FunctionTool(name: bytes, description: Option<bytes>, parameters: Option<Json>)
    | BuiltinTool(kind: bytes)

  /** The canonical spec of a function tool; missing parameters become an
      empty object. */
  function SpecOf(t: ResponsesTool): C.ToolSpec
    requires t.FunctionTool?
  {
    C.ToolSpec(t.name, t.description, t.parameters.GetOr(Object([])))
  }

  /** The function tools' specs, in order. */
  function FunctionSpecs(tools: seq<ResponsesTool>): (r: seq<C.ToolSpec>)
    ensures |r| <= |tools|
  {
    if tools == [] then []
    else
      var last := tools[|tools| - 1];
      FunctionSpecs(tools[..|tools| - 1]) + (if last.FunctionTool? then [SpecOf(last)] else [])
  }

  /** The other tools, in order. */
  function BuiltinTools(tools: seq<ResponsesTool>): (r: seq<ResponsesTool>)
    ensures |r| <= |tools|
    ensures forall k | 0 <= k < |r| :: r[k].BuiltinTool?
  {
    if tools == [] then []
    else
      var last := tools[|tools| - 1];
      BuiltinTools(tools[..|tools| - 1]) + (if last.FunctionTool? then [] else [last])
  }

  /** The two groups split the tools: every tool lands in exactly one, there
      are function specs exactly when there is a function tool, and a list
      of built-in tools splits into itself. */
  lemma {:induction false} Partition(tools: seq<ResponsesTool>)
    ensures |FunctionSpecs(tools)| + |BuiltinTools(tools)| == |tools|
    ensures FunctionSpecs(tools) == [] <==> forall k | 0 <= k < |tools| :: tools[k].BuiltinTool?
    ensures (forall k | 0 <= k < |tools| :: tools[k].BuiltinTool?) ==> BuiltinTools(tools) == tools
  {
    if tools != [] {
      var init := tools[..|tools| - 1];
      Partition(init);
      assert forall k | 0 <= k < |init| :: init[k] == tools[k];
    }
  }

  /** `decode_responses_wire_tools`: function tools become canonical specs,
      the rest are kept, each group in its original order. */
  method DecodeTools(tools: Option<seq<ResponsesTool>>) returns (saved: seq<C.ToolSpec>, passthrough: seq<ResponsesTool>)
    ensures saved == FunctionSpecs(tools.GetOr([]))
    ensures passthrough == BuiltinTools(tools.GetOr([]))
  {
    saved, passthrough := [], [];
    if tools.None? {
      return;
    }
    var items := tools.value;
    var i := 0;
    while i < |items|
      invariant 0 <= i <= |items|
      invariant saved == FunctionSpecs(items[..i])
      invariant passthrough == BuiltinTools(items[..i])
    {
      assert items[..i + 1][..i] == items[..i];
      if items[i].FunctionTool? {
        saved := saved + [SpecOf(items[i])];
      } else {
        passthrough := passthrough + [items[i]];
      }
      i := i + 1;
    }
    assert items[..i] == items;
  }

  // ---------------------------------------------------------------------
  // Input items

  const UNKNOWN_ITEM: bytes := "Unknown Responses API input item type: "
  const BAD_INPUT: bytes := "Responses API `input` must be a string or array"

  /** `responses_arguments_to_json_string`: a string as it is, any other
      value serialised, nothing as `{}`. */
  function ArgumentsText(v: Option<Json>, serialize: Json -> bytes): bytes {
    match v
    case None => "{}"
    case Some(Str(s)) => s
    case Some(other) => serialize(other)
  }

  /** The call a `function_call` item with a non-empty string `call_id`
      records: its name (`unknown` when missing) and its arguments text. */
  function CallOf(item: Json, serialize: Json -> bytes): Option<FcPreprocess.CallRecord> {
    var id := GetStr(item, "call_id");
    if item.Object? && GetStr(item, "type") == Some("function_call") && id.Some? && id.value != [] then
      Some(FcPreprocess.CallRecord(id.value, GetStr(item, "name").GetOr("unknown"), ArgumentsText(Get(item, "arguments"), serialize)))
    else None
  }

  /** The calls among `items`, in order. */
  function CallsIn(items: seq<Json>, serialize: Json -> bytes): (r: seq<FcPreprocess.CallRecord>)
    ensures forall k | 0 <= k < |r| :: r[k].id != []
  {
    if items == [] then []
    else
      var c := CallOf(items[|items| - 1], serialize);
      CallsIn(items[..|items| - 1], serialize) + (if c.Some? then [c.value] else [])
  }

  /** The first loop of `preprocess_responses_wire_input`: each call is
      inserted in turn, so a repeated call id keeps its last call. */
  method BuildCallIndex(items: seq<Json>, serialize: Json -> bytes) returns (index: map<bytes, (bytes, bytes)>)
    ensures index == FcPreprocess.IndexOf(CallsIn(items, serialize))
  {
    index := map[];
    var i := 0;
    while i < |items|
      invariant 0 <= i <= |items|
      invariant index == FcPreprocess.IndexOf(CallsIn(items[..i], serialize))
    {
      assert items[..i + 1][..i] == items[..i];
      var c := CallOf(items[i], serialize);
      if c.Some? {
        assert CallsIn(items[..i + 1], serialize) == CallsIn(items[..i], serialize) + [c.value];
        FcPreprocess.IndexSnoc(CallsIn(items[..i], serialize), c.value);
        index := index[c.value.id := (c.value.name, c.value.arguments)];
      } else {
        assert CallsIn(items[..i + 1], serialize) == CallsIn(items[..i], serialize);
      }
      i := i + 1;
    }
    assert items[..i] == items;
  }

  /** The type of an input item; a missing or non-string type reads as a
      message. */
  function ItemType(item: Json): bytes {
    GetStr(item, "type").GetOr("message")
  }

  predicate KnownType(t: bytes) {
    t == "message" || t == "function_call" || t == "function_call_output"
  }

  /** An object item whose type the preprocessor rejects. */
  predicate UnknownItem(item: Json) {
    item.Object? && !KnownType(ItemType(item))
  }

  /** The assistant text a `function_call` item becomes: the trigger, then
      one call block whose id line is left out when the id is empty. */
  function CallText(trigger: bytes, callId: bytes, name: bytes, arguments: bytes): bytes {
    trigger + "\n<function_calls>\n<function_call>\n"
      + (if callId == [] then [] else "  <id>" + callId + "</id>\n")
      + "<tool>" + name + "</tool>\n<args_json>" + FcPreprocess.WrapCdata(arguments)
      + "</args_json>\n</function_call>\n</function_calls>"
  }

  /** A one-part message with the given role, part type and text. */
  function MessageItem(role: bytes, partType: bytes, text: bytes): Json {
    Object([("type", Str("message")), ("role", Str(role)),
            ("content", Array([Object([("type", Str(partType)), ("text", Str(text))])]))])
  }

  /** What one input item becomes: nothing for a non-object, itself for a
      message, an assistant message for a call, a user message for a call
      output, and an error naming any other type. */
  function TransformItem(index: map<bytes, (bytes, bytes)>, trigger: bytes, item: Json,
                         serialize: Json -> bytes): (r: Result<Option<Json>, bytes>)
    ensures r.Err? <==> UnknownItem(item)
    ensures r.Err? ==> r.error == UNKNOWN_ITEM + ItemType(item)
    ensures r == Ok(None) <==> !item.Object?
  {
    if !item.Object? then Ok(None)
    else
      var t := ItemType(item);
      if t == "message" then Ok(Some(item))
      else if t == "function_call" then
        var text := CallText(trigger, GetStr(item, "call_id").GetOr([]), GetStr(item, "name").GetOr("unknown"),
                             ArgumentsText(Get(item, "arguments"), serialize));
        Ok(Some(MessageItem("assistant", "output_text", text)))
      else if t == "function_call_output" then
        var call := FcPreprocess.LookupCall(index, GetStr(item, "call_id").GetOr([]));
        var text := FcPreprocess.ToolResultText(call.0, call.1, GetStr(item, "output").GetOr([]));
        Ok(Some(MessageItem("user", "input_text", text)))
      else Err(UNKNOWN_ITEM + t)
  }

  /** The second loop: the items rewritten in order, stopping at the first
      error. */
  function Transformed(index: map<bytes, (bytes, bytes)>, trigger: bytes, items: seq<Json>,
                       serialize: Json -> bytes): Result<seq<Json>, bytes>
  {
    if items == [] then Ok([])
    else
      match Transformed(index, trigger, items[..|items| - 1], serialize)
      case Err(e) => Err(e)
      case Ok(out) =>
        match TransformItem(index, trigger, items[|items| - 1], serialize)
        case Err(e) => Err(e)
        case Ok(x) => Ok(out + (if x.Some? then [x.value] else []))
  }

  /** How many items are objects. */
  function ObjectCount(items: seq<Json>): nat {
    if items == [] then 0
    else ObjectCount(items[..|items| - 1]) + (if items[|items| - 1].Object? then 1 else 0)
  }

  /** The rewrite fails exactly when some object item has an unknown type,
      and the error names the first such item's type; otherwise one item
      comes out per object item. */
  lemma {:induction false} TransformedOutcome(index: map<bytes, (bytes, bytes)>, trigger: bytes, items: seq<Json>,
                                              serialize: Json -> bytes)
    ensures Transformed(index, trigger, items, serialize).Err?
      <==> exists k | 0 <= k < |items| :: UnknownItem(items[k])
    ensures Transformed(index, trigger, items, serialize).Err? ==>
      exists k | 0 <= k < |items| :: UnknownItem(items[k])
        && (forall j | 0 <= j < k :: !UnknownItem(items[j]))
        && Transformed(index, trigger, items, serialize).error == UNKNOWN_ITEM + ItemType(items[k])
    ensures Transformed(index, trigger, items, serialize).Ok? ==>
      |Transformed(index, trigger, items, serialize).value| == ObjectCount(items)
  {
    if items != [] {
      var init := items[..|items| - 1];
      TransformedOutcome(index, trigger, init, serialize);
      assert forall k | 0 <= k < |init| :: init[k] == items[k];
    }
  }

  /** An error in a prefix is the error of the whole rewrite. */
  /** One more item: its rewrite is appended, dropped, or its error ends
      the rewrite. */
  lemma TransformedStep(index: map<bytes, (bytes, bytes)>, trigger: bytes, items: seq<Json>, i: nat,
                        serialize: Json -> bytes, done: seq<Json>)
    requires i < |items| && Transformed(index, trigger, items[..i], serialize) == Ok(done)
    ensures var x := TransformItem(index, trigger, items[i], serialize);
      && (x.Err? ==> Transformed(index, trigger, items[..i + 1], serialize) == Err(x.error))
      && (x.Ok? && x.value.Some? ==> Transformed(index, trigger, items[..i + 1], serialize) == Ok(done + [x.value.value]))
      && (x.Ok? && x.value.None? ==> Transformed(index, trigger, items[..i + 1], serialize) == Ok(done))
  {
    assert items[..i + 1][..i] == items[..i];
    assert done + [] == done;
  }

  lemma {:induction false} ErrorSticks(index: map<bytes, (bytes, bytes)>, trigger: bytes, items: seq<Json>,
                                       i: nat, serialize: Json -> bytes)
    requires i <= |items|
    requires Transformed(index, trigger, items[..i], serialize).Err?
    ensures Transformed(index, trigger, items, serialize) == Transformed(index, trigger, items[..i], serialize)
    decreases |items| - i
  {
    if i < |items| {
      assert items[..i + 1][..i] == items[..i];
      ErrorSticks(index, trigger, items, i + 1, serialize);
    } else {
      assert items[..i] == items;
    }
  }

  /** `preprocess_responses_wire_input`, as a value. */
  function PreprocessedInput(input: Json, trigger: bytes, serialize: Json -> bytes): Result<Json, bytes> {
    match input
    case Str(_) => Ok(input)
    case Array(items) =>
      (match Transformed(FcPreprocess.IndexOf(CallsIn(items, serialize)), trigger, items, serialize)
       case Ok(out) => Ok(Array(out))
       case Err(e) => Err(e))
    case _ => Err(BAD_INPUT)
  }

  /** `preprocess_responses_wire_input`: builds the call index, then
      rewrites the items in order. */
  method PreprocessInput(input: Json, trigger: bytes, serialize: Json -> bytes) returns (r: Result<Json, bytes>)
    ensures r == PreprocessedInput(input, trigger, serialize)
  {
    match input {
      case Str(_) =>
        return Ok(input);
      case Array(items) =>
        var index := BuildCallIndex(items, serialize);
        var transformed: seq<Json> := [];
        var i := 0;
        while i < |items|
          invariant 0 <= i <= |items|
          invariant Transformed(index, trigger, items[..i], serialize) == Ok(transformed)
        {
          var x := TransformItem(index, trigger, items[i], serialize);
          TransformedStep(index, trigger, items, i, serialize, transformed);
          if x.Err? {
            ErrorSticks(index, trigger, items, i + 1, serialize);
            return Err(x.error);
          }
          if x.value.Some? {
            transformed := transformed + [x.value.value];
          }
          i := i + 1;
        }
        assert items[..i] == items;
        return Ok(Array(transformed));
      case _ =>
        return Err(BAD_INPUT);
    }
  }

  /** The input is rejected exactly when it is neither a string nor an
      array, or when an object item has an unknown type. */
  lemma InputRejected(input: Json, trigger: bytes, serialize: Json -> bytes)
    ensures PreprocessedInput(input, trigger, serialize).Err? <==>
      !(input.Str? || input.Array?)
      || (input.Array? && exists k | 0 <= k < |input.items| :: UnknownItem(input.items[k]))
  {
    if input.Array? {
      TransformedOutcome(FcPreprocess.IndexOf(CallsIn(input.items, serialize)), trigger, input.items, serialize);
    }
  }

  /** A call output names the last earlier-or-later call with its id, or
      `unknown` with `{}` arguments when no call has that id. */
  lemma OutputNamesItsCall(items: seq<Json>, serialize: Json -> bytes, trigger: bytes, j: nat)
    requires j < |items| && items[j].Object? && ItemType(items[j]) == "function_call_output"
    ensures var calls := CallsIn(items, serialize);
      var id := GetStr(items[j], "call_id").GetOr([]);
      var output := GetStr(items[j], "output").GetOr([]);
      var r := TransformItem(FcPreprocess.IndexOf(calls), trigger, items[j], serialize);
      && ((forall k | 0 <= k < |calls| :: calls[k].id != id) ==>
          r == Ok(Some(MessageItem("user", "input_text", FcPreprocess.ToolResultText("unknown", "{}", output)))))
      && (forall k | 0 <= k < |calls| && calls[k].id == id && (forall k' | k < k' < |calls| :: calls[k'].id != id) ::
          r == Ok(Some(MessageItem("user", "input_text", FcPreprocess.ToolResultText(calls[k].name, calls[k].arguments, output)))))
  {
    var calls := CallsIn(items, serialize);
    var id := GetStr(items[j], "call_id").GetOr([]);
    FcPreprocess.IndexOfLastWins(calls, id);
  }

  /** The call block keeps the arguments byte for byte inside its CDATA
      section and starts with the trigger. */
  lemma CallTextKeepsArguments(trigger: bytes, callId: bytes, name: bytes, arguments: bytes)
    ensures StartsWith(CallText(trigger, callId, name, arguments), trigger)
    ensures Contains(CallText(trigger, callId, name, arguments), FcPreprocess.WrapCdata(arguments))
    ensures FcParser.UnwrapCdata(FcPreprocess.WrapCdata(arguments)) == arguments
  {
    var w := FcPreprocess.WrapCdata(arguments);
    var pre := trigger + "\n<function_calls>\n<function_call>\n"
      + (if callId == [] then [] else "  <id>" + callId + "</id>\n")
      + "<tool>" + name + "</tool>\n<args_json>";
    var x := CallText(trigger, callId, name, arguments);
    assert x == pre + w + "</args_json>\n</function_call>\n</function_calls>";
    assert x[..|trigger|] == trigger;
    ContainsMiddle(pre, w, "</args_json>\n</function_call>\n</function_calls>");
    FcPreprocess.WrapCdataRoundTrip(arguments);
  }

  // ---------------------------------------------------------------------
  // Injection

  /** The fields of `ResponsesRequest` injection reads or writes. */
  datatype WireRequest = WireRequest(input: Json, instructions: Option<bytes>, tools: Option<seq<ResponsesTool>>,
                                     toolChoice: Option<Json>, extra: seq<(bytes, Json)>)

  datatype InjectError = PromptFailed(error: FcPrompt.PromptError) | InvalidRequest(message: bytes)

  /** `responses_prefers_structured_output`: `response_format`, or
      `text.format`, asks for JSON. */
  predicate PrefersStructuredOutput(extra: seq<(bytes, Json)>) {
    var rf := Lookup(extra, "response_format");
    var text := Lookup(extra, "text");
    (rf.Some? && FcInject.ResponseFormatIsJsonMode(rf.value))
    || (text.Some? && FcInject.ResponsesTextFormatIsJsonMode(text.value))
  }

  /** The tools left in the request: the built-in ones, or none at all. */
  function Kept(tools: Option<seq<ResponsesTool>>): Option<seq<ResponsesTool>> {
    var pass := BuiltinTools(tools.GetOr([]));
    if pass == [] then None else Some(pass)
  }

  /** What `apply_fc_inject_responses_wire` returns and leaves in the
      request, with prompt generation uncached. The tools are taken out
      before the prompt is generated and the input before it is
      preprocessed, so a failing prompt leaves the request without tools,
      and a rejected input leaves it without tools, with a null input and
      with the joined instructions. */
  function InjectOutcome(req: WireRequest, template: Option<bytes>, setup: FcPrompt.PromptSetup,
                         detail: FcPrompt.ParamDetail, serialize: Json -> bytes)
    : (Result<seq<C.ToolSpec>, InjectError>, WireRequest)
  {
    var choice := DecodeToolChoice(req.toolChoice);
    if PrefersStructuredOutput(req.extra) || choice == C.NoTools then (Ok([]), req)
    else
      var saved := FunctionSpecs(req.tools.GetOr([]));
      if saved == [] then (Ok([]), req.(tools := Kept(req.tools)))
      else
        match FcPrompt.UncachedPrompt(saved, choice, template, setup, detail)
        case Err(e) => (Err(PromptFailed(e)), req.(tools := None))
        case Ok(prompt) =>
          var joined := req.(instructions := Some(FcInject.JoinedSystemPrompt(req.instructions, prompt)));
          match PreprocessedInput(req.input, setup.trigger, serialize)
          case Err(m) => (Err(InvalidRequest(m)), joined.(input := Null, tools := None))
          case Ok(input) => (Ok(saved), joined.(input := input, tools := Kept(req.tools), toolChoice := None))
  }

  /** `apply_fc_inject_responses_wire`: `req` is the request before, `after`
      the request after. */
  method ApplyFcInject(req: WireRequest, template: Option<bytes>, setup: FcPrompt.PromptSetup,
                       detail: FcPrompt.ParamDetail, serialize: Json -> bytes)
    returns (r: Result<seq<C.ToolSpec>, InjectError>, after: WireRequest)
    ensures (r, after) == InjectOutcome(req, template, setup, detail, serialize)
  {
    after := req;
    if PrefersStructuredOutput(after.extra) {
      return Ok([]), after;
    }
    var choice := DecodeToolChoice(after.toolChoice);
    if choice == C.NoTools {
      return Ok([]), after;
    }
    var taken := after.tools;
    after := after.(tools := None);
    var saved, passthrough := DecodeTools(taken);
    if saved == [] {
      after := after.(tools := if passthrough == [] then None else Some(passthrough));
      return Ok(saved), after;
    }
    var prompt := FcPrompt.GenerateUncached(saved, choice, template, setup, detail);
    if prompt.Err? {
      return Err(PromptFailed(prompt.error)), after;
    }
    after := after.(instructions := Some(FcInject.JoinedSystemPrompt(after.instructions, prompt.value)));
    var input := after.input;
    after := after.(input := Null);
    var pre := PreprocessInput(input, setup.trigger, serialize);
    if pre.Err? {
      return Err(InvalidRequest(pre.error)), after;
    }
    after := after.(input := pre.value);
    after := after.(tools := if passthrough == [] then None else Some(passthrough));
    after := after.(toolChoice := None);
    r := Ok(saved);
  }

  /** Structured output or a `none` choice leaves the request alone;
      without function tools only an empty tool list is dropped; a success
      hands back exactly the function tools, keeps only built-in tools,
      and clears the tool choice. The extra fields never change. */
  lemma InjectShape(req: WireRequest, template: Option<bytes>, setup: FcPrompt.PromptSetup,
                    detail: FcPrompt.ParamDetail, serialize: Json -> bytes)
    ensures var (r, after) := InjectOutcome(req, template, setup, detail, serialize);
      && after.extra == req.extra
      && (PrefersStructuredOutput(req.extra) || req.toolChoice == Some(Str("none")) ==> r == Ok([]) && after == req)
      && (FunctionSpecs(req.tools.GetOr([])) == [] ==>
            r == Ok([]) && after.instructions == req.instructions
            && after.toolChoice == req.toolChoice && after.input == req.input)
      && (r.Ok? && r.value != [] ==>
          r.value == FunctionSpecs(req.tools.GetOr([])) && after.toolChoice.None?
          && after.instructions.Some? && StartsWith(after.instructions.value, req.instructions.GetOr([])))
      && (after != req && after.tools.Some? ==>
          after.tools.value != [] && forall k | 0 <= k < |after.tools.value| :: after.tools.value[k].BuiltinTool?)
  {
    InjectSuccessShape(req, template, setup, detail, serialize);
    InjectKeepsBuiltins(req, template, setup, detail, serialize);
  }

  /** A successful injection hands back exactly the function tools, clears
      the tool choice and puts the old instructions in front of the prompt. */
  lemma InjectSuccessShape(req: WireRequest, template: Option<bytes>, setup: FcPrompt.PromptSetup,
                           detail: FcPrompt.ParamDetail, serialize: Json -> bytes)
    ensures var (r, after) := InjectOutcome(req, template, setup, detail, serialize);
      r.Ok? && r.value != [] ==>
        r.value == FunctionSpecs(req.tools.GetOr([])) && after.toolChoice.None?
        && after.instructions.Some? && StartsWith(after.instructions.value, req.instructions.GetOr([]))
  {
    var (r, after) := InjectOutcome(req, template, setup, detail, serialize);
    if req.instructions.Some? && r.Ok? && r.value != [] {
      assert StartsWith(req.instructions.value + "\n", req.instructions.value);
    }
  }

  /** Whatever tools an injection leaves in the request are built-in tools,
      and it never leaves an empty tool list. */
  lemma InjectKeepsBuiltins(req: WireRequest, template: Option<bytes>, setup: FcPrompt.PromptSetup,
                            detail: FcPrompt.ParamDetail, serialize: Json -> bytes)
    ensures var after := InjectOutcome(req, template, setup, detail, serialize).1;
      after != req && after.tools.Some? ==>
        after.tools.value != [] && forall k | 0 <= k < |after.tools.value| :: after.tools.value[k].BuiltinTool?
  {
  }

  /** Injecting into a request that injection has already handled changes
      nothing and takes no tools. */
  lemma InjectIdempotent(req: WireRequest, template: Option<bytes>, setup: FcPrompt.PromptSetup,
                         detail: FcPrompt.ParamDetail, serialize: Json -> bytes)
    requires InjectOutcome(req, template, setup, detail, serialize).0.Ok?
    ensures var after := InjectOutcome(req, template, setup, detail, serialize).1;
      InjectOutcome(after, template, setup, detail, serialize) == (Ok([]), after)
  {
    var after := InjectOutcome(req, template, setup, detail, serialize).1;
    var pass := BuiltinTools(req.tools.GetOr([]));
    Partition(pass);
    if after != req {
      assert after.tools == Kept(req.tools);
      assert FunctionSpecs(after.tools.GetOr([])) == [];
      assert Kept(after.tools) == after.tools;
    }
  }
}
