/** The provider-neutral request, response and stream-event shapes that
    every ingress decodes into and every upstream encoder reads from
    (`src/protocol/canonical.rs`). Text is UTF-8 held as `bytes`; raw JSON
    fragments (tool arguments) are their text. */
module Canonical {
  import opened Wrappers
  import opened Bytes
  import opened Ints
  import opened JsonValue

  /** Which API a request arrived on. */
  datatype IngressApi = OpenAiChat | OpenAiResponses | Anthropic | Gemini

  /** Which API an upstream service speaks. */
  datatype ProviderKind = OpenAi | OpenAiResponsesProvider | AnthropicProvider | GeminiProvider | GeminiOpenAi

  datatype Role = System | User | Assistant | Tool

  datatype StopReason = EndOfTurn | ToolCalls | MaxTokens | ContentFilter

  datatype ToolChoice = Auto | NoTools | Required | Specific(name: bytes)

  datatype Usage = Usage(inputTokens: Option<u64>, outputTokens: Option<u64>, totalTokens: Option<u64>)

  datatype Part =
    | Text(text: bytes)
    | ReasoningText(reasoning: bytes)
    | ImageUrl(url: bytes, detail: Option<bytes>)
    | ToolCall(id: bytes, name: bytes, arguments: bytes)
    | ToolResult(toolCallId: bytes, content: bytes)
    | Refusal(refusal: bytes)

  datatype Message = Message(role: Role, parts: seq<Part>, name: Option<bytes>,
                             toolCallId: Option<bytes>, extensions: Option<seq<(bytes, Json)>>)

  datatype ToolSpec = ToolSpec(name: bytes, description: Option<bytes>, parameters: Json)

  datatype Request = Request(ingress: IngressApi, model: bytes, stream: bool,
                             systemPrompt: Option<bytes>, messages: seq<Message>,
                             tools: seq<ToolSpec>, toolChoice: ToolChoice,
                             extensions: Option<seq<(bytes, Json)>>)

  datatype Response = Response(id: bytes, model: bytes, content: seq<Part>,
                               stopReason: StopReason, usage: Usage)

  datatype StreamEvent =
    | MessageStart(role: Role)
    | TextDelta(text: bytes)
    | ReasoningDelta(reasoning: bytes)
    | ToolCallStart(index: nat, id: bytes, name: bytes)
    | ToolCallArgsDelta(index: nat, delta: bytes)
    | ToolCallEnd(index: nat, callId: Option<bytes>, callName: Option<bytes>)
    | ToolResultEvent(toolCallId: bytes, content: bytes)
    | UsageEvent(usage: Usage)
    | MessageEnd(stopReason: StopReason)
    | Done
    | ErrorEvent(status: u16, message: bytes)
}
