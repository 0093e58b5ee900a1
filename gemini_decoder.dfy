/** Decoding a Gemini `generateContent` request into the canonical request
    (`src/protocol/gemini/decoder.rs`). Gemini function calls carry no ids,
    so the decoder makes them up: each call gets `call_<n>` from a running
    counter, and each function response is bound to the oldest call of the
    same name that is still waiting for one (a FIFO queue per name), or to a
    fresh id when none is waiting. */
module GeminiDecoder {
  import opened Wrappers
  import opened Bytes
  import opened JsonValue
  import opened Canonical
  import Util
  import Mapping

  datatype GeminiPart =
    | GeminiText(text: bytes)
    | FunctionCall(name: bytes, args: Json)
    | FunctionResponse(name: bytes, response: Json)
    | InlineData

  datatype GeminiContent = GeminiContent(role: Option<bytes>, parts: seq<GeminiPart>)

  datatype FunctionDeclaration = FunctionDeclaration(name: bytes, description: Option<bytes>, parameters: Option<Json>)

  datatype FunctionCallingConfig = FunctionCallingConfig(mode: Option<bytes>, allowedFunctionNames: Option<seq<bytes>>)

  /** The fields the decoder reads; `functionCallingConfig` is
      `tool_config.function_calling_config`, present only when both are. */
  datatype GeminiRequest = GeminiRequest(
    contents: seq<GeminiContent>,
    tools: Option<seq<seq<FunctionDeclaration>>>,
    functionCallingConfig: Option<FunctionCallingConfig>,
    systemInstruction: Option<GeminiContent>)

  // ------------------------------------------------------------------
  // Call ids

  /** `format!("call_{n}")`. */
  function CallId(n: nat): bytes {
    "call_" + Util.Decimal(n)
  }

  /** Different counters give different ids. */
  lemma CallIdInjective(m: nat, n: nat)
    requires CallId(m) == CallId(n)
    ensures m == n
  {
    assert Util.Decimal(m) == CallId(m)[5..];
    assert Util.Decimal(n) == CallId(n)[5..];
    Util.DecimalRoundTrip(m);
    Util.DecimalRoundTrip(n);
  }

  /** The decoder's state: `call_counter` and `pending_calls_by_name`, each
      pending id kept as the counter value it was made from. */
  datatype Binding = Binding(counter: nat, pending: map<bytes, seq<nat>>)

  /** The ids still waiting for a response under `name`, oldest first. */
  function Queue(b: Binding, name: bytes): seq<nat> {
    if name in b.pending then b.pending[name] else []
  }

  predicate Increasing(s: seq<nat>) {
    forall i, j | 0 <= i < j < |s| :: s[i] < s[j]
  }

  /** Every waiting id has been issued, and each queue is in issue order. */
  predicate ValidBinding(b: Binding) {
    forall name | name in b.pending ::
      Increasing(b.pending[name]) && forall i | 0 <= i < |b.pending[name]| :: b.pending[name][i] < b.counter
  }

  /** A function call takes the next counter value and queues it under its
      name. */
  function BindCall(b: Binding, name: bytes): (r: (Binding, nat))
    ensures r.1 == b.counter && r.0.counter == b.counter + 1
    ensures Queue(r.0, name) == Queue(b, name) + [r.1]
    ensures forall other | other != name :: Queue(r.0, other) == Queue(b, other)
  {
    (Binding(b.counter + 1, b.pending[name := Queue(b, name) + [b.counter]]), b.counter)
  }

  /** A function response takes the oldest waiting id of its name, or the
      next counter value when none waits. */
  function BindResponse(b: Binding, name: bytes): (r: (Binding, nat))
    ensures |Queue(b, name)| > 0 ==> r.1 == Queue(b, name)[0] && r.0.counter == b.counter
                                     && Queue(r.0, name) == Queue(b, name)[1..]
    ensures |Queue(b, name)| == 0 ==> r.1 == b.counter && r.0.counter == b.counter + 1 && r.0.pending == b.pending
    ensures forall other | other != name :: Queue(r.0, other) == Queue(b, other)
  {
    var q := Queue(b, name);
    if |q| > 0 then (Binding(b.counter, b.pending[name := q[1..]]), q[0])
    else (Binding(b.counter + 1, b.pending), b.counter)
  }

  /** Binding keeps the state valid and never moves the counter back. */
  lemma BindPreservesValid(b: Binding, name: bytes, isCall: bool)
    requires ValidBinding(b)
    ensures var r := if isCall then BindCall(b, name) else BindResponse(b, name);
            ValidBinding(r.0) && b.counter <= r.0.counter
  {
    var r := if isCall then BindCall(b, name) else BindResponse(b, name);
    forall other | other in r.0.pending
      ensures Increasing(r.0.pending[other])
      ensures forall i | 0 <= i < |r.0.pending[other]| :: r.0.pending[other][i] < r.0.counter
    {
      assert r.0.pending[other] == Queue(r.0, other);
    }
  }

  /** A response with calls of its name waiting is bound to the oldest of
      them: an id issued earlier, and no later than any other waiting one. */
  lemma ResponseBindsOldestCall(b: Binding, name: bytes)
    requires ValidBinding(b) && |Queue(b, name)| > 0
    ensures BindResponse(b, name).1 < b.counter
    ensures forall k | 0 <= k < |Queue(b, name)| :: BindResponse(b, name).1 <= Queue(b, name)[k]
  {
    assert name in b.pending;
  }

  // ------------------------------------------------------------------
  // Parts, messages, the request

  /** One part: text is kept, a call or a response gets its id, inline data
      is dropped. `toJson` is `serde_json::to_string`. */
  function DecodePart(b: Binding, part: GeminiPart, toJson: Json -> bytes): (r: (Binding, seq<Part>))
    ensures |r.1| <= 1
  {
    match part
    case GeminiText(t) => (b, [Text(t)])
    case FunctionCall(name, args) =>
      var (b2, n) := BindCall(b, name);
      (b2, [ToolCall(CallId(n), name, toJson(args))])
    case FunctionResponse(name, response) =>
      var (b2, n) := BindResponse(b, name);
      (b2, [ToolResult(CallId(n), toJson(response))])
    case InlineData => (b, [])
  }

  /** The parts of one content in order, threading the binding. */
  function DecodeParts(b: Binding, parts: seq<GeminiPart>, toJson: Json -> bytes): (Binding, seq<Part>)
    decreases |parts|
  {
    if |parts| == 0 then (b, [])
    else
      var (b1, first) := DecodePart(b, parts[0], toJson);
      var (b2, rest) := DecodeParts(b1, parts[1..], toJson);
      (b2, first + rest)
  }

  /** `find_map` for the first function response's name. */
  function FirstResponseName(parts: seq<GeminiPart>): (r: Option<bytes>)
    ensures r.Some? ==> exists k | 0 <= k < |parts| :: parts[k].FunctionResponse? && parts[k].name == r.value
                          && forall j | 0 <= j < k :: !parts[j].FunctionResponse?
    ensures r.None? ==> forall k | 0 <= k < |parts| :: !parts[k].FunctionResponse?
  {
    if |parts| == 0 then None
    else if parts[0].FunctionResponse? then Some(parts[0].name)
    else
      var r := FirstResponseName(parts[1..]);
      assert forall k | 0 <= k < |parts| - 1 :: parts[1..][k] == parts[k + 1];
      r
  }

  /** A missing role is the user's; a present one maps as Gemini roles do. */
  function RoleOf(content: GeminiContent): (r: Role)
    ensures content.role.None? ==> r == User
    ensures r != System
  {
    match content.role
    case None => User
    case Some(role) => Mapping.GeminiRoleToCanonical(role)
  }

  /** One content becomes one message; a tool-role message is named after
      its first function response. */
  function DecodeContent(b: Binding, content: GeminiContent, toJson: Json -> bytes): (r: (Binding, Message))
    ensures r.1.role == RoleOf(content)
    ensures r.1.name == (if RoleOf(content) == Tool then FirstResponseName(content.parts) else None)
    ensures r.1.toolCallId.None? && r.1.extensions.None?
  {
    var role := RoleOf(content);
    var (b2, parts) := DecodeParts(b, content.parts, toJson);
    var name := if role == Tool then FirstResponseName(content.parts) else None;
    (b2, Message(role, parts, name, None, None))
  }

  function DecodeContents(b: Binding, contents: seq<GeminiContent>, toJson: Json -> bytes): (r: (Binding, seq<Message>))
    ensures |r.1| == |contents|
    decreases |contents|
  {
    if |contents| == 0 then (b, [])
    else
      var (b1, m) := DecodeContent(b, contents[0], toJson);
      var (b2, rest) := DecodeContents(b1, contents[1..], toJson);
      (b2, [m] + rest)
  }

  /** The system prompt is the system instruction's first part, when that
      part is text. */
  function SystemPrompt(request: GeminiRequest): (r: Option<bytes>)
    ensures r.Some? ==> request.systemInstruction.Some? && |request.systemInstruction.value.parts| > 0
                        && request.systemInstruction.value.parts[0] == GeminiText(r.value)
  {
    match request.systemInstruction
    case None => None
    case Some(si) =>
      if |si.parts| > 0 && si.parts[0].GeminiText? then Some(si.parts[0].text) else None
  }

  /** A declaration becomes a tool; missing parameters are an empty object. */
  function DecodeDeclaration(fd: FunctionDeclaration): (t: ToolSpec)
    ensures t.name == fd.name && t.description == fd.description
    ensures fd.parameters.None? ==> t.parameters == Object([])
  {
    ToolSpec(fd.name, fd.description, fd.parameters.GetOr(Object([])))
  }

  /** Every declaration of every tool entry, in order (`flat_map`). */
  function DecodeTools(decls: seq<seq<FunctionDeclaration>>): (r: seq<ToolSpec>)
    ensures |decls| == 0 ==> r == []
    decreases |decls|
  {
    if |decls| == 0 then []
    else seq(|decls[0]|, i requires 0 <= i < |decls[0]| => DecodeDeclaration(decls[0][i])) + DecodeTools(decls[1..])
  }

  /** The tools are exactly the decoded declarations of all tool entries. */
  lemma {:induction false} DecodeToolsMembers(decls: seq<seq<FunctionDeclaration>>, t: ToolSpec)
    ensures t in DecodeTools(decls) <==>
            exists i, j | 0 <= i < |decls| && 0 <= j < |decls[i]| :: t == DecodeDeclaration(decls[i][j])
    decreases |decls|
  {
    if |decls| > 0 {
      DecodeToolsMembers(decls[1..], t);
      var head := seq(|decls[0]|, i requires 0 <= i < |decls[0]| => DecodeDeclaration(decls[0][i]));
      assert DecodeTools(decls) == head + DecodeTools(decls[1..]);
      if t in DecodeTools(decls) {
        if t in head {
          var j :| 0 <= j < |head| && head[j] == t;
          assert t == DecodeDeclaration(decls[0][j]);
        } else {
          var i, j :| 0 <= i < |decls[1..]| && 0 <= j < |decls[1..][i]| && t == DecodeDeclaration(decls[1..][i][j]);
          assert t == DecodeDeclaration(decls[i + 1][j]);
        }
      }
      if exists i, j | 0 <= i < |decls| && 0 <= j < |decls[i]| :: t == DecodeDeclaration(decls[i][j]) {
        var i, j :| 0 <= i < |decls| && 0 <= j < |decls[i]| && t == DecodeDeclaration(decls[i][j]);
        if i == 0 {
          assert head[j] == t;
        } else {
          assert decls[1..][i - 1] == decls[i];
        }
      }
    }
  }

  /** `decode_gemini_tool_choice_config`: `NONE` disables tools, `ANY`
      requires one (the only allowed function, when exactly one is
      allowed), anything else (the default `AUTO` included) is auto. */
  function DecodeToolChoiceConfig(cfg: Option<FunctionCallingConfig>): (r: ToolChoice)
    ensures cfg.None? || cfg.value.mode.None? ==> r == Auto
    ensures r == NoTools <==> cfg.Some? && cfg.value.mode == Some("NONE")
    ensures r.Specific? ==> cfg.Some? && cfg.value.mode == Some("ANY") && cfg.value.allowedFunctionNames == Some([r.name])
    ensures r == Required <==> cfg.Some? && cfg.value.mode == Some("ANY")
                               && !(cfg.value.allowedFunctionNames.Some? && |cfg.value.allowedFunctionNames.value| == 1)
  {
    match cfg
    case None => Auto
    case Some(c) =>
      var mode := c.mode.GetOr("AUTO");
      if mode == "NONE" then NoTools
      else if mode == "ANY" then
        if c.allowedFunctionNames.Some? && |c.allowedFunctionNames.value| == 1 then
          assert c.allowedFunctionNames.value == [c.allowedFunctionNames.value[0]];
          Specific(c.allowedFunctionNames.value[0])
        else Required
      else Auto
  }

  /** What `decode_gemini_request` builds: the model from the URL, never
      streaming, the decoded contents with a fresh binding, the tools and
      the tool choice. */
  function DecodedRequest(request: GeminiRequest, model: bytes, toJson: Json -> bytes): Request {
    Request(Gemini, model, false, SystemPrompt(request),
            DecodeContents(Binding(0, map[]), request.contents, toJson).1,
            DecodeTools(request.tools.GetOr([])), DecodeToolChoiceConfig(request.functionCallingConfig), None)
  }

  /** The body of the per-part loop of `decode_gemini_request`: one part
      against the counter and the queues. */
  method DecodeOnePart(counter: nat, pending: map<bytes, seq<nat>>, part: GeminiPart, toJson: Json -> bytes)
    returns (counter': nat, pending': map<bytes, seq<nat>>, out: seq<Part>)
    ensures (Binding(counter', pending'), out) == DecodePart(Binding(counter, pending), part, toJson)
  {
    counter', pending' := counter, pending;
    match part {
      case GeminiText(t) =>
        out := [Text(t)];
      case FunctionCall(name, args) =>
        var id := CallId(counter');
        var queue := if name in pending' then pending'[name] else [];
        pending' := pending'[name := queue + [counter']];
        counter' := counter' + 1;
        out := [ToolCall(id, name, toJson(args))];
      case FunctionResponse(name, response) =>
        var n;
        if name in pending' && |pending'[name]| > 0 {
          n := pending'[name][0];
          pending' := pending'[name := pending'[name][1..]];
        } else {
          n := counter';
          counter' := counter' + 1;
        }
        out := [ToolResult(CallId(n), toJson(response))];
      case InlineData =>
        out := [];
    }
  }

  /** Decoding one more part extends the output and moves the binding on. */
  lemma DecodePartsStep(b: Binding, parts: seq<GeminiPart>, i: nat, toJson: Json -> bytes)
    requires i < |parts|
    ensures var step := DecodePart(b, parts[i], toJson);
            var rest := DecodeParts(step.0, parts[i + 1..], toJson);
            DecodeParts(b, parts[i..], toJson) == (rest.0, step.1 + rest.1)
  {
    assert parts[i..][1..] == parts[i + 1..];
  }

  /** The per-part loop of `decode_gemini_request`. */
  method DecodePartsLoop(counter: nat, pending: map<bytes, seq<nat>>, parts: seq<GeminiPart>, toJson: Json -> bytes)
    returns (counter': nat, pending': map<bytes, seq<nat>>, out: seq<Part>)
    ensures (Binding(counter', pending'), out) == DecodeParts(Binding(counter, pending), parts, toJson)
  {
    counter', pending', out := counter, pending, [];
    ghost var final := DecodeParts(Binding(counter, pending), parts, toJson);
    var i := 0;
    assert parts[i..] == parts;
    while i < |parts|
      invariant 0 <= i <= |parts|
      invariant DecodeParts(Binding(counter', pending'), parts[i..], toJson).0 == final.0
      invariant out + DecodeParts(Binding(counter', pending'), parts[i..], toJson).1 == final.1
    {
      DecodePartsStep(Binding(counter', pending'), parts, i, toJson);
      ghost var rest := DecodeParts(DecodePart(Binding(counter', pending'), parts[i], toJson).0, parts[i + 1..], toJson);
      ghost var before := out;
      var piece;
      counter', pending', piece := DecodeOnePart(counter', pending', parts[i], toJson);
      out := out + piece;
      assert out + rest.1 == before + (piece + rest.1);
      i := i + 1;
    }
    assert parts[i..] == [];
    assert out + [] == out;
  }

  /** `decode_gemini_request`: the contents loop around the parts loop,
      with one counter and one set of queues for the whole request. The
      conversion of a call's arguments into a raw JSON value cannot fail on
      text `serde_json` wrote, so the error path is not taken. */
  method DecodeGeminiRequest(request: GeminiRequest, model: bytes, toJson: Json -> bytes) returns (r: Request)
    ensures r == DecodedRequest(request, model, toJson)
  {
    var systemPrompt := SystemPrompt(request);
    var messages: seq<Message> := [];
    var callCounter: nat := 0;
    var pendingCallsByName: map<bytes, seq<nat>> := map[];
    ghost var final := DecodeContents(Binding(0, map[]), request.contents, toJson).1;
    var i := 0;
    assert request.contents[i..] == request.contents;
    while i < |request.contents|
      invariant 0 <= i <= |request.contents|
      invariant messages + DecodeContents(Binding(callCounter, pendingCallsByName), request.contents[i..], toJson).1 == final
    {
      DecodeContentsStep(Binding(callCounter, pendingCallsByName), request.contents, i, toJson);
      ghost var step := DecodeContent(Binding(callCounter, pendingCallsByName), request.contents[i], toJson);
      ghost var rest := DecodeContents(step.0, request.contents[i + 1..], toJson).1;
      var content := request.contents[i];
      var role := RoleOf(content);
      var parts;
      callCounter, pendingCallsByName, parts := DecodePartsLoop(callCounter, pendingCallsByName, content.parts, toJson);
      var name := if role == Tool then FirstResponseName(content.parts) else None;
      assert Message(role, parts, name, None, None) == step.1;
      assert (messages + [step.1]) + rest == messages + ([step.1] + rest);
      messages := messages + [Message(role, parts, name, None, None)];
      i := i + 1;
    }
    assert request.contents[i..] == [];
    assert messages + [] == messages;
    var tools := DecodeTools(request.tools.GetOr([]));
    var toolChoice := DecodeToolChoiceConfig(request.functionCallingConfig);
    r := Request(Gemini, model, false, systemPrompt, messages, tools, toolChoice, None);
  }

  /** Decoding one more content appends its message and moves the binding
      on. */
  lemma DecodeContentsStep(b: Binding, contents: seq<GeminiContent>, i: nat, toJson: Json -> bytes)
    requires i < |contents|
    ensures var step := DecodeContent(b, contents[i], toJson);
            DecodeContents(b, contents[i..], toJson).1 == [step.1] + DecodeContents(step.0, contents[i + 1..], toJson).1
  {
    assert contents[i..][1..] == contents[i + 1..];
  }

  // ------------------------------------------------------------------
  // What the binding guarantees

  /** Decoding parts keeps the binding valid and never moves the counter
      back. */
  lemma {:induction false} PartsKeepValid(b: Binding, parts: seq<GeminiPart>, toJson: Json -> bytes)
    requires ValidBinding(b)
    ensures ValidBinding(DecodeParts(b, parts, toJson).0)
    ensures b.counter <= DecodeParts(b, parts, toJson).0.counter
    decreases |parts|
  {
    if |parts| > 0 {
      match parts[0] {
        case FunctionCall(name, _) => BindPreservesValid(b, name, true);
        case FunctionResponse(name, _) => BindPreservesValid(b, name, false);
        case _ =>
      }
      PartsKeepValid(DecodePart(b, parts[0], toJson).0, parts[1..], toJson);
    }
  }

  /** The ids of the tool calls among `ps`, in order. */
  function CallIdsOf(ps: seq<Part>): seq<bytes>
    decreases |ps|
  {
    if |ps| == 0 then [] else (if ps[0].ToolCall? then [ps[0].id] else []) + CallIdsOf(ps[1..])
  }

  lemma {:induction false} CallIdsOfConcat(a: seq<Part>, b: seq<Part>)
    ensures CallIdsOf(a + b) == CallIdsOf(a) + CallIdsOf(b)
    decreases |a|
  {
    if |a| > 0 {
      assert (a + b)[0] == a[0];
      assert (a + b)[1..] == a[1..] + b;
      CallIdsOfConcat(a[1..], b);
    } else {
      assert a + b == b;
    }
  }

  /** The counter values the function calls among `parts` take. */
  function CallIndices(b: Binding, parts: seq<GeminiPart>, toJson: Json -> bytes): seq<nat>
    decreases |parts|
  {
    if |parts| == 0 then []
    else (if parts[0].FunctionCall? then [b.counter] else []) + CallIndices(DecodePart(b, parts[0], toJson).0, parts[1..], toJson)
  }

  /** `ids` are the ids made from the increasing counter values `ci`, all
      within `[lo, hi)`. */
  predicate Issued(ids: seq<bytes>, ci: seq<nat>, lo: nat, hi: nat) {
    |ids| == |ci| && Increasing(ci)
    && (forall k | 0 <= k < |ci| :: ids[k] == CallId(ci[k]) && lo <= ci[k] < hi)
  }

  lemma IssuedConcat(ids1: seq<bytes>, ci1: seq<nat>, ids2: seq<bytes>, ci2: seq<nat>, lo: nat, mid: nat, hi: nat)
    requires lo <= mid <= hi
    requires Issued(ids1, ci1, lo, mid) && Issued(ids2, ci2, mid, hi)
    ensures Issued(ids1 + ids2, ci1 + ci2, lo, hi)
  {
    var ids, ci := ids1 + ids2, ci1 + ci2;
    forall k | 0 <= k < |ci| ensures ids[k] == CallId(ci[k]) && lo <= ci[k] < hi {
      if k < |ci1| {
        assert ids[k] == ids1[k] && ci[k] == ci1[k];
      } else {
        assert ids[k] == ids2[k - |ci1|] && ci[k] == ci2[k - |ci1|];
      }
    }
    forall i, j | 0 <= i < j < |ci| ensures ci[i] < ci[j] {
      if j < |ci1| {
        assert ci[i] == ci1[i] && ci[j] == ci1[j];
      } else if i >= |ci1| {
        assert ci[i] == ci2[i - |ci1|] && ci[j] == ci2[j - |ci1|];
      } else {
        assert ci[i] == ci1[i] && ci[j] == ci2[j - |ci1|];
      }
    }
  }

  /** Within one content, the tool calls take increasing counter values
      from the range the content used up. */
  lemma {:induction false} PartsIssued(b: Binding, parts: seq<GeminiPart>, toJson: Json -> bytes)
    ensures var r := DecodeParts(b, parts, toJson);
            b.counter <= r.0.counter && Issued(CallIdsOf(r.1), CallIndices(b, parts, toJson), b.counter, r.0.counter)
    decreases |parts|
  {
    if |parts| > 0 {
      var step := DecodePart(b, parts[0], toJson);
      var rest := DecodeParts(step.0, parts[1..], toJson);
      PartsIssued(step.0, parts[1..], toJson);
      CallIdsOfConcat(step.1, rest.1);
      var head := if parts[0].FunctionCall? then [b.counter] else [];
      assert CallIdsOf(step.1) == if parts[0].FunctionCall? then [CallId(b.counter)] else [] by {
        if |step.1| > 0 {
          assert step.1[1..] == [];
        }
      }
      IssuedConcat(CallIdsOf(step.1), head, CallIdsOf(rest.1), CallIndices(step.0, parts[1..], toJson),
                   b.counter, step.0.counter, rest.0.counter);
    }
  }

  /** The tool-call ids of a run of messages, in order. */
  function MessageCallIds(ms: seq<Message>): seq<bytes>
    decreases |ms|
  {
    if |ms| == 0 then [] else CallIdsOf(ms[0].parts) + MessageCallIds(ms[1..])
  }

  /** The counter values the function calls of all contents take. */
  function ContentCallIndices(b: Binding, contents: seq<GeminiContent>, toJson: Json -> bytes): seq<nat>
    decreases |contents|
  {
    if |contents| == 0 then []
    else CallIndices(b, contents[0].parts, toJson)
           + ContentCallIndices(DecodeContent(b, contents[0], toJson).0, contents[1..], toJson)
  }

  lemma {:induction false} ContentsIssued(b: Binding, contents: seq<GeminiContent>, toJson: Json -> bytes)
    ensures var r := DecodeContents(b, contents, toJson);
            b.counter <= r.0.counter
            && Issued(MessageCallIds(r.1), ContentCallIndices(b, contents, toJson), b.counter, r.0.counter)
    decreases |contents|
  {
    if |contents| > 0 {
      var step := DecodeContent(b, contents[0], toJson);
      var rest := DecodeContents(step.0, contents[1..], toJson);
      PartsIssued(b, contents[0].parts, toJson);
      ContentsIssued(step.0, contents[1..], toJson);
      assert ([step.1] + rest.1)[1..] == rest.1;
      IssuedConcat(CallIdsOf(step.1.parts), CallIndices(b, contents[0].parts, toJson),
                   MessageCallIds(rest.1), ContentCallIndices(step.0, contents[1..], toJson),
                   b.counter, step.0.counter, rest.0.counter);
    }
  }

  /** No two tool calls of a decoded request share an id. */
  lemma RequestCallIdsDistinct(request: GeminiRequest, model: bytes, toJson: Json -> bytes)
    ensures var ids := MessageCallIds(DecodedRequest(request, model, toJson).messages);
            forall i, j | 0 <= i < j < |ids| :: ids[i] != ids[j]
  {
    var b := Binding(0, map[]);
    ContentsIssued(b, request.contents, toJson);
    var ids := MessageCallIds(DecodedRequest(request, model, toJson).messages);
    var ci := ContentCallIndices(b, request.contents, toJson);
    forall i, j | 0 <= i < j < |ids| ensures ids[i] != ids[j] {
      if ids[i] == ids[j] {
        CallIdInjective(ci[i], ci[j]);
      }
    }
  }

  /** A call followed by two responses of its name: the first response is
      bound to the call, the second gets a fresh id. */
  lemma CallThenTwoResponses(name: bytes, args: Json, first: Json, second: Json, toJson: Json -> bytes)
    ensures DecodeParts(Binding(0, map[]), [FunctionCall(name, args), FunctionResponse(name, first), FunctionResponse(name, second)], toJson).1
            == [ToolCall(CallId(0), name, toJson(args)), ToolResult(CallId(0), toJson(first)), ToolResult(CallId(1), toJson(second))]
  {
    var parts := [FunctionCall(name, args), FunctionResponse(name, first), FunctionResponse(name, second)];
    var b1 := Binding(1, map[name := [0]]);
    var b2 := Binding(1, map[name := []]);
    var b3 := Binding(2, map[name := []]);
    assert Queue(Binding(0, map[]), name) + [0] == [0];
    assert map[][name := [0]] == b1.pending;
    assert BindCall(Binding(0, map[]), name) == (b1, 0);
    assert Queue(b1, name)[1..] == [];
    assert b1.pending[name := []] == b2.pending;
    assert BindResponse(b1, name) == (b2, 0);
    assert BindResponse(b2, name) == (b3, 1);
    assert parts[1..][1..][1..] == [];
    assert DecodeParts(b3, parts[1..][1..][1..], toJson).1 == [];
    assert DecodeParts(b2, parts[1..][1..], toJson).1 == [ToolResult(CallId(1), toJson(second))];
    assert DecodeParts(b1, parts[1..], toJson).1 == [ToolResult(CallId(0), toJson(first)), ToolResult(CallId(1), toJson(second))];
  }
}
