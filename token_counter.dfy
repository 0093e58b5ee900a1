/** The local token estimate used when an upstream reports no usage, and
    the merge of reported and estimated usage
    (`src/observability/token_counter.rs`). */
module TokenCounter {
  import opened Wrappers
  import opened Bytes
  import opened Ints
  import opened Canonical

  /** `estimate_tokens`: a quarter of the byte length, rounded up (the model
      name is not consulted). */
  function EstimateTokens(text: bytes): (n: nat)
    ensures 4 * n >= |text| && 4 * n < |text| + 4
    ensures n == 0 <==> |text| == 0
  {
    (|text| + 3) / 4
  }

  /** What one message part adds: its text, tool-result content or tool-call
      arguments; an image adds nothing. */
  function PartTokens(p: Part): nat {
    match p
    case Text(t) => EstimateTokens(t)
    case ReasoningText(t) => EstimateTokens(t)
    case Refusal(t) => EstimateTokens(t)
    case ToolResult(_, content) => EstimateTokens(content)
    case ToolCall(_, _, arguments) => EstimateTokens(arguments)
    case ImageUrl(_, _) => 0
  }

  function PartsTokens(parts: seq<Part>): nat {
    if |parts| == 0 then 0 else PartsTokens(parts[..|parts| - 1]) + PartTokens(parts[|parts| - 1])
  }

  function MessagesTokens(messages: seq<Message>): nat {
    if |messages| == 0 then 0
    else MessagesTokens(messages[..|messages| - 1]) + PartsTokens(messages[|messages| - 1].parts)
  }

  /** A tool counts its serialized parameter schema (`paramText`, the
      serializer's output), its description and its name. */
  function ToolTokens(tool: ToolSpec, paramText: bytes): nat {
    EstimateTokens(paramText)
    + (if tool.description.Some? then EstimateTokens(tool.description.value) else 0)
    + EstimateTokens(tool.name)
  }

  function ToolsTokens(tools: seq<ToolSpec>, paramTexts: seq<bytes>): nat
    requires |paramTexts| == |tools|
  {
    if |tools| == 0 then 0
    else ToolsTokens(tools[..|tools| - 1], paramTexts[..|tools| - 1])
         + ToolTokens(tools[|tools| - 1], paramTexts[|tools| - 1])
  }

  /** The whole estimate: system prompt, message parts, tool definitions. */
  function RequestTokens(request: Request, paramTexts: seq<bytes>): nat
    requires |paramTexts| == |request.tools|
  {
    (if request.systemPrompt.Some? then EstimateTokens(request.systemPrompt.value) else 0)
    + MessagesTokens(request.messages)
    + ToolsTokens(request.tools, paramTexts)
  }

  /** `estimate_request_tokens`: one running total over the system prompt,
      every part of every message and every tool. `paramTexts[k]` is the
      serialized parameter schema of tool `k`. */
  method EstimateRequestTokens(request: Request, paramTexts: seq<bytes>) returns (total: nat)
    requires |paramTexts| == |request.tools|
    ensures total == RequestTokens(request, paramTexts)
  {
    total := 0;
    if request.systemPrompt.Some? {
      total := total + EstimateTokens(request.systemPrompt.value);
    }
    var base := total;
    var messages := request.messages;
    for i := 0 to |messages|
      invariant total == base + MessagesTokens(messages[..i])
    {
      var parts := messages[i].parts;
      ghost var before := total;
      for j := 0 to |parts|
        invariant total == before + PartsTokens(parts[..j])
      {
        total := total + PartTokens(parts[j]);
        assert parts[..j + 1][..j] == parts[..j];
      }
      assert parts[..|parts|] == parts;
      assert messages[..i + 1][..i] == messages[..i];
    }
    assert messages[..|messages|] == messages;
    base := total;
    var tools := request.tools;
    for k := 0 to |tools|
      invariant total == base + ToolsTokens(tools[..k], paramTexts[..k])
    {
      var tool := tools[k];
      total := total + EstimateTokens(paramTexts[k]);
      if tool.description.Some? {
        total := total + EstimateTokens(tool.description.value);
      }
      total := total + EstimateTokens(tool.name);
      assert tools[..k + 1][..k] == tools[..k];
      assert paramTexts[..k + 1][..k] == paramTexts[..k];
    }
    assert tools[..|tools|] == tools;
    assert paramTexts[..|tools|] == paramTexts;
  }

  lemma {:induction false} PartsTokensAppend(a: seq<Part>, b: seq<Part>)
    ensures PartsTokens(a + b) == PartsTokens(a) + PartsTokens(b)
    decreases |b|
  {
    if |b| > 0 {
      PartsTokensAppend(a, b[..|b| - 1]);
      assert (a + b)[..|a + b| - 1] == a + b[..|b| - 1];
    } else {
      assert a + b == a;
    }
  }

  /** An image part never changes the estimate, wherever it is inserted. */
  lemma ImagesAreFree(before: seq<Part>, after: seq<Part>, url: bytes, detail: Option<bytes>)
    ensures PartsTokens(before + [ImageUrl(url, detail)] + after) == PartsTokens(before + after)
  {
    PartsTokensAppend(before + [ImageUrl(url, detail)], after);
    PartsTokensAppend(before, [ImageUrl(url, detail)]);
    PartsTokensAppend(before, after);
    assert PartsTokens([ImageUrl(url, detail)]) == PartsTokens([]) + 0;
  }

  /** One more message adds exactly the estimate of its parts. */
  lemma AppendMessage(request: Request, paramTexts: seq<bytes>, m: Message)
    requires |paramTexts| == |request.tools|
    ensures RequestTokens(request.(messages := request.messages + [m]), paramTexts)
            == RequestTokens(request, paramTexts) + PartsTokens(m.parts)
  {
    assert (request.messages + [m])[..|request.messages|] == request.messages;
  }

  // ------------------------------------------------------------------
  // Usage merge

  /** A count the upstream actually reported: present and non-zero. */
  predicate Reported(n: Option<u64>) { n.Some? && n.value > 0 }

  /** `merge_usage`: upstream counts win when reported; a missing or zero
      count takes the estimate; a missing or zero total becomes the sum of
      the merged input and output (wrapping like a release build). */
  function MergeUsage(upstream: Usage, estimatedInput: u64, estimatedOutput: u64): (r: Usage)
    ensures r.inputTokens.Some? && r.outputTokens.Some? && r.totalTokens.Some?
    ensures r.inputTokens == (if Reported(upstream.inputTokens) then upstream.inputTokens else Some(estimatedInput))
    ensures r.outputTokens == (if Reported(upstream.outputTokens) then upstream.outputTokens else Some(estimatedOutput))
    ensures Reported(upstream.totalTokens) ==> r.totalTokens == upstream.totalTokens
    ensures !Reported(upstream.totalTokens) && r.inputTokens.value + r.outputTokens.value < U64_LIMIT ==>
              r.totalTokens.value == r.inputTokens.value + r.outputTokens.value
  {
    var input := if Reported(upstream.inputTokens) then upstream.inputTokens else Some(estimatedInput);
    var output := if Reported(upstream.outputTokens) then upstream.outputTokens else Some(estimatedOutput);
    var total := if Reported(upstream.totalTokens) then upstream.totalTokens
                 else Some(WrappingAdd(input.GetOr(0), output.GetOr(0)));
    Usage(input, output, total)
  }

  /** A fully reported usage is left alone whatever the estimates, so
      merging twice with non-zero estimates changes nothing more. */
  lemma MergeFixpoint(u: Usage, a: u64, b: u64, c: u64, d: u64)
    ensures Reported(u.inputTokens) && Reported(u.outputTokens) && Reported(u.totalTokens) ==> MergeUsage(u, a, b) == u
    ensures a > 0 && b > 0 && (MergeUsage(u, a, b).totalTokens.value > 0) ==>
              MergeUsage(MergeUsage(u, a, b), c, d) == MergeUsage(u, a, b)
  {
  }
}
