/** The wire names of roles and stop reasons in each provider's dialect, and
    the usage counters each dialect reports (`src/protocol/mapping.rs`).
    Every encoder states what its decoder gives back: the identity for
    OpenAI, a documented loss for Anthropic and Gemini. */
module Mapping {
  import opened Wrappers
  import opened Bytes
  import opened Ints
  import opened JsonValue
  import opened Canonical

  // ------------------------------------------------------------------
  // Roles
  // ------------------------------------------------------------------

  /** Decoding an OpenAI role: "developer" is a second spelling of the
      system role; an unknown role is read as the user's. */
  function OpenAiRoleToCanonical(s: bytes): (r: Role)
    ensures s == "developer" ==> r == System
  {
    if s == "system" || s == "developer" then System
    else if s == "assistant" then Assistant
    else if s == "tool" then Tool
    else User
  }

  /** OpenAI has a wire name for every role, and it reads back unchanged. */
  function CanonicalRoleToOpenAi(role: Role): (s: bytes)
    ensures OpenAiRoleToCanonical(s) == role
  {
    match role
    case System => "system"
    case User => "user"
    case Assistant => "assistant"
    case Tool => "tool"
  }

  /** Anthropic only knows "assistant"; everything else is the user. */
  function AnthropicRoleToCanonical(s: bytes): (r: Role)
    ensures r == Assistant || r == User
  {
    if s == "assistant" then Assistant else User
  }

  /** Anthropic messages carry no system or tool role: the system prompt
      travels separately and tool results are user messages, so only the
      assistant role survives a round trip. */
  function CanonicalRoleToAnthropic(role: Role): (s: bytes)
    ensures AnthropicRoleToCanonical(s) == (if role == Assistant then Assistant else User)
  {
    match role
    case System => "user"
    case User => "user"
    case Tool => "user"
    case Assistant => "assistant"
  }

  function GeminiRoleToCanonical(s: bytes): (r: Role)
    ensures r != System
  {
    if s == "model" then Assistant
    else if s == "function" then Tool
    else User
  }

  /** Gemini's "model" and "function" roles carry the assistant and the
      tool; the system prompt goes in `systemInstruction`, so a system
      message reads back as the user's. */
  function CanonicalRoleToGemini(role: Role): (s: bytes)
    ensures GeminiRoleToCanonical(s) == (if role == System then User else role)
  {
    match role
    case System => "user"
    case User => "user"
    case Assistant => "model"
    case Tool => "function"
  }

  // ------------------------------------------------------------------
  // Stop reasons
  // ------------------------------------------------------------------

  /** Unknown finish reasons read as the end of the turn. */
  function OpenAiStopToCanonical(s: bytes): (r: StopReason)
  {
    if s == "tool_calls" then ToolCalls
    else if s == "length" then MaxTokens
    else if s == "content_filter" then ContentFilter
    else EndOfTurn
  }

  function CanonicalStopToOpenAi(reason: StopReason): (s: bytes)
    ensures OpenAiStopToCanonical(s) == reason
  {
    match reason
    case EndOfTurn => "stop"
    case ToolCalls => "tool_calls"
    case MaxTokens => "length"
    case ContentFilter => "content_filter"
  }

  function AnthropicStopToCanonical(s: bytes): (r: StopReason)
    ensures r != ContentFilter
  {
    if s == "tool_use" then ToolCalls
    else if s == "max_tokens" then MaxTokens
    else EndOfTurn
  }

  /** Anthropic has no content-filter reason: it is sent as "end_turn",
      the only reason that does not survive a round trip. */
  function CanonicalStopToAnthropic(reason: StopReason): (s: bytes)
    ensures AnthropicStopToCanonical(s) == (if reason == ContentFilter then EndOfTurn else reason)
  {
    match reason
    case EndOfTurn => "end_turn"
    case ContentFilter => "end_turn"
    case ToolCalls => "tool_use"
    case MaxTokens => "max_tokens"
  }

  /** "SAFETY" and "RECITATION" are both content filtering. */
  function GeminiStopToCanonical(s: bytes): (r: StopReason)
    ensures r != ToolCalls
  {
    if s == "MAX_TOKENS" then MaxTokens
    else if s == "SAFETY" || s == "RECITATION" then ContentFilter
    else EndOfTurn
  }

  /** Gemini reports "STOP" even when the turn ended in tool calls, so
      tool calls read back as the end of the turn. */
  function CanonicalStopToGemini(reason: StopReason): (s: bytes)
    ensures GeminiStopToCanonical(s) == (if reason == ToolCalls then EndOfTurn else reason)
  {
    match reason
    case EndOfTurn => "STOP"
    case ToolCalls => "STOP"
    case MaxTokens => "MAX_TOKENS"
    case ContentFilter => "SAFETY"
  }

  /** A decoder yields something other than its fallback only for a name
      its encoder produces (or, for OpenAI, the "developer" alias): the
      decoders invent no other spellings. */
  lemma RoleDecodersInvertEncoders(s: bytes)
    ensures OpenAiRoleToCanonical(s) != User ==>
              s == CanonicalRoleToOpenAi(OpenAiRoleToCanonical(s)) || s == "developer"
    ensures AnthropicRoleToCanonical(s) == Assistant <==> s == CanonicalRoleToAnthropic(Assistant)
    ensures GeminiRoleToCanonical(s) != User ==> s == CanonicalRoleToGemini(GeminiRoleToCanonical(s))
  {
  }

  lemma StopDecodersInvertEncoders(s: bytes)
    ensures OpenAiStopToCanonical(s) != EndOfTurn ==> s == CanonicalStopToOpenAi(OpenAiStopToCanonical(s))
    ensures AnthropicStopToCanonical(s) != EndOfTurn ==> s == CanonicalStopToAnthropic(AnthropicStopToCanonical(s))
    ensures GeminiStopToCanonical(s) == MaxTokens ==> s == CanonicalStopToGemini(MaxTokens)
    ensures GeminiStopToCanonical(s) == ContentFilter <==> s == CanonicalStopToGemini(ContentFilter) || s == "RECITATION"
  {
  }

  /** Every dialect's encoder is injective on the reasons it keeps apart. */
  lemma StopEncodersInjective(a: StopReason, b: StopReason)
    ensures CanonicalStopToOpenAi(a) == CanonicalStopToOpenAi(b) ==> a == b
    ensures CanonicalStopToAnthropic(a) == CanonicalStopToAnthropic(b) && a != ContentFilter && b != ContentFilter ==> a == b
    ensures CanonicalStopToGemini(a) == CanonicalStopToGemini(b) && a != ToolCalls && b != ToolCalls ==> a == b
  {
  }

  // ------------------------------------------------------------------
  // Usage
  // ------------------------------------------------------------------

  function Count(n: Option<u64>): Json {
    Number(Int(n.GetOr(0)))
  }

  /** A usage object with three counters; a missing count is written as 0. */
  function UsageObject3(k1: bytes, k2: bytes, k3: bytes, usage: Usage): Json {
    Object([(k1, Count(usage.inputTokens)), (k2, Count(usage.outputTokens)), (k3, Count(usage.totalTokens))])
  }

  /** Reads three counters; a missing or non-u64 member is None. */
  function ReadUsage3(val: Json, k1: bytes, k2: bytes, k3: bytes): (r: Usage)
    ensures val.Object? && val.fields == [] ==> r == Usage(None, None, None)
    ensures r.inputTokens.Some? ==> Get(val, k1) == Some(Number(Int(r.inputTokens.value)))
    ensures r.outputTokens.Some? ==> Get(val, k2) == Some(Number(Int(r.outputTokens.value)))
    ensures r.totalTokens.Some? ==> Get(val, k3) == Some(Number(Int(r.totalTokens.value)))
  {
    Usage(GetU64(val, k1), GetU64(val, k2), GetU64(val, k3))
  }

  /** Reading back three distinct counters gives every count, zero-filled. */
  lemma ReadUsageObject3(k1: bytes, k2: bytes, k3: bytes, usage: Usage)
    requires k1 != k2 && k1 != k3 && k2 != k3
    ensures ReadUsage3(UsageObject3(k1, k2, k3, usage), k1, k2, k3) == ZeroFilled(usage)
  {
    var fields := UsageObject3(k1, k2, k3, usage).fields;
    LookupAt(fields, 0);
    LookupAt(fields, 1);
    LookupAt(fields, 2);
  }

  /** Every count reported, with 0 for the missing ones. */
  function ZeroFilled(usage: Usage): (r: Usage)
    ensures r.inputTokens.Some? && r.outputTokens.Some? && r.totalTokens.Some?
    ensures usage.inputTokens.Some? && usage.outputTokens.Some? && usage.totalTokens.Some? ==> r == usage
  {
    Usage(Some(usage.inputTokens.GetOr(0)), Some(usage.outputTokens.GetOr(0)), Some(usage.totalTokens.GetOr(0)))
  }

  /** `prompt_tokens`, `completion_tokens`, `total_tokens`. */
  function CanonicalUsageToOpenAi(usage: Usage): (j: Json)
    ensures OpenAiUsageToCanonical(j) == ZeroFilled(usage)
  {
    assert "prompt_tokens"[0] == 'p' && "completion_tokens"[0] == 'c' && "total_tokens"[0] == 't';
    ReadUsageObject3("prompt_tokens", "completion_tokens", "total_tokens", usage);
    UsageObject3("prompt_tokens", "completion_tokens", "total_tokens", usage)
  }

  function OpenAiUsageToCanonical(val: Json): (r: Usage)
    ensures r.inputTokens.Some? ==> Get(val, "prompt_tokens") == Some(Number(Int(r.inputTokens.value)))
    ensures r.outputTokens.Some? ==> Get(val, "completion_tokens") == Some(Number(Int(r.outputTokens.value)))
    ensures r.totalTokens.Some? ==> Get(val, "total_tokens") == Some(Number(Int(r.totalTokens.value)))
  {
    ReadUsage3(val, "prompt_tokens", "completion_tokens", "total_tokens")
  }

  /** `promptTokenCount`, `candidatesTokenCount`, `totalTokenCount`. */
  function CanonicalUsageToGemini(usage: Usage): (j: Json)
    ensures GeminiUsageToCanonical(j) == ZeroFilled(usage)
  {
    assert "promptTokenCount"[0] == 'p' && "candidatesTokenCount"[0] == 'c' && "totalTokenCount"[0] == 't';
    ReadUsageObject3("promptTokenCount", "candidatesTokenCount", "totalTokenCount", usage);
    UsageObject3("promptTokenCount", "candidatesTokenCount", "totalTokenCount", usage)
  }

  function GeminiUsageToCanonical(val: Json): (r: Usage)
    ensures r.inputTokens.Some? ==> Get(val, "promptTokenCount") == Some(Number(Int(r.inputTokens.value)))
    ensures r.outputTokens.Some? ==> Get(val, "candidatesTokenCount") == Some(Number(Int(r.outputTokens.value)))
    ensures r.totalTokens.Some? ==> Get(val, "totalTokenCount") == Some(Number(Int(r.totalTokens.value)))
  {
    ReadUsage3(val, "promptTokenCount", "candidatesTokenCount", "totalTokenCount")
  }

  /** Anthropic reports no total: `input_tokens` and `output_tokens` only. */
  function CanonicalUsageToAnthropic(usage: Usage): (j: Json)
    ensures j.Object? && |j.fields| == 2
  {
    Object([("input_tokens", Count(usage.inputTokens)), ("output_tokens", Count(usage.outputTokens))])
  }

  /** The total is derived, and only when both counts are present. */
  function AnthropicUsageToCanonical(val: Json): (r: Usage)
    ensures r.totalTokens.Some? <==> r.inputTokens.Some? && r.outputTokens.Some?
    ensures r.inputTokens.Some? ==> Get(val, "input_tokens") == Some(Number(Int(r.inputTokens.value)))
    ensures r.outputTokens.Some? ==> Get(val, "output_tokens") == Some(Number(Int(r.outputTokens.value)))
    ensures r.totalTokens.Some? && r.inputTokens.value + r.outputTokens.value < U64_LIMIT ==>
              r.totalTokens.value == r.inputTokens.value + r.outputTokens.value
  {
    var input := GetU64(val, "input_tokens");
    var output := GetU64(val, "output_tokens");
    var total := if input.Some? && output.Some? then Some(WrappingAdd(input.value, output.value)) else None;
    Usage(input, output, total)
  }

  /** Through the Anthropic dialect the total is recomputed from the two
      counts that are sent: a usage whose total is their sum survives the
      round trip; any other total is replaced by the sum. */
  lemma AnthropicUsageRoundTrip(usage: Usage)
    ensures var r := AnthropicUsageToCanonical(CanonicalUsageToAnthropic(usage));
      && r.inputTokens == Some(usage.inputTokens.GetOr(0))
      && r.outputTokens == Some(usage.outputTokens.GetOr(0))
      && (usage.inputTokens.GetOr(0) + usage.outputTokens.GetOr(0) < U64_LIMIT ==>
            r.totalTokens == Some(usage.inputTokens.GetOr(0) + usage.outputTokens.GetOr(0)))
    ensures usage.inputTokens.Some? && usage.outputTokens.Some? && usage.totalTokens.Some? &&
            usage.totalTokens.value == usage.inputTokens.value + usage.outputTokens.value ==>
              AnthropicUsageToCanonical(CanonicalUsageToAnthropic(usage)) == usage
  {
    var j := CanonicalUsageToAnthropic(usage);
    assert j.fields[0].0 != "output_tokens" by { assert j.fields[0].0[0] != "output_tokens"[0]; }
    assert j.fields[1..] == [("output_tokens", Count(usage.outputTokens))];
    assert Lookup(j.fields[1..], "output_tokens") == Some(Count(usage.outputTokens));
    assert Lookup(j.fields, "output_tokens") == Some(Count(usage.outputTokens));
    assert Get(j, "input_tokens") == Some(Count(usage.inputTokens));
    assert Get(j, "output_tokens") == Some(Count(usage.outputTokens));
  }
}
