/** `src/protocol/anthropic/stream.rs`: Anthropic's named stream events,
    decoded into canonical stream events (statelessly, and through the
    decoder that remembers the kind of each content block), and canonical
    events encoded as `(event name, JSON)` pairs or as whole SSE frames. */
module AnthropicStream {
  import opened Wrappers
  import opened Bytes
  import opened Ints
  import Util
  import Sse
  import Mapping
  import C = Canonical

  // ---------------------------------------------------------------------
  // Wire events

  datatype WireUsage = WireUsage(inputTokens: u64, outputTokens: u64)

  /** The block a `content_block_start` opens; a tool result's content is
      not read by the decoder and is left out. */
  datatype ContentBlock =
    | TextBlock(text: bytes)
    | ThinkingBlock(thinking: bytes)
    | ToolUseBlock(id: bytes, name: bytes)
    | ToolResultBlock(toolUseId: bytes)

  datatype Delta =
    | TextPiece(text: bytes)
    | ThinkingPiece(thinking: bytes)
    | InputJsonPiece(partialJson: bytes)

  /** `AnthropicStreamEvent`, with the fields the decoder reads. */
  datatype WireEvent =
    | MessageStart(id: bytes, model: bytes, usage: WireUsage)
    | ContentBlockStart(index: nat, block: ContentBlock)
    | ContentBlockDelta(index: nat, delta: Delta)
    | ContentBlockStop(index: nat)
    | MessageDelta(stopReason: Option<bytes>, usage: WireUsage)
    | MessageStop
    | Ping
    | ErrorEvent(message: bytes)

  /** The canonical usage of a wire usage: both counts, and their sum as a
      release build adds two `u64`s. */
  function UsageOf(u: WireUsage): (r: C.Usage)
    ensures r.inputTokens == Some(u.inputTokens) && r.outputTokens == Some(u.outputTokens)
    ensures r.totalTokens.Some?
    ensures u.inputTokens + u.outputTokens < U64_LIMIT ==> r.totalTokens.value == u.inputTokens + u.outputTokens
  {
    C.Usage(Some(u.inputTokens), Some(u.outputTokens), Some(WrappingAdd(u.inputTokens, u.outputTokens)))
  }

  // ---------------------------------------------------------------------
  // Stateless decoding

  /** `decode_anthropic_stream_event_into`: the canonical events one wire
      event stands for. A block stop and a ping stand for nothing here. */
  function Decode(ev: WireEvent): (r: seq<C.StreamEvent>)
    ensures |r| <= 2
    ensures ev.MessageStart? ==>
      |r| >= 1 && r[0] == C.MessageStart(C.Assistant)
      && (|r| == 2 <==> ev.usage.inputTokens > 0 || ev.usage.outputTokens > 0)
      && (|r| == 2 ==> r[1] == C.UsageEvent(UsageOf(ev.usage)))
    ensures ev.MessageDelta? ==>
      |r| >= 1 && r[0] == C.UsageEvent(UsageOf(ev.usage))
      && (|r| == 2 <==> ev.stopReason.Some?)
      && (|r| == 2 ==> r[1] == C.MessageEnd(Mapping.AnthropicStopToCanonical(ev.stopReason.value)))
    ensures ev.ContentBlockStop? || ev.Ping? ==> r == []
    ensures ev.MessageStop? ==> r == [C.Done]
    ensures ev.ErrorEvent? ==> r == [C.ErrorEvent(500, ev.message)]
    ensures ev.ContentBlockStart? && ev.block.TextBlock? ==> (r == [] <==> ev.block.text == [])
    ensures ev.ContentBlockStart? && ev.block.ThinkingBlock? ==> (r == [] <==> ev.block.thinking == [])
    ensures ev.ContentBlockStart? && ev.block.ToolResultBlock? ==> r == []
  {
    match ev
    case MessageStart(_, _, usage) =>
      [C.MessageStart(C.Assistant)]
      + (if usage.inputTokens > 0 || usage.outputTokens > 0 then [C.UsageEvent(UsageOf(usage))] else [])
    case ContentBlockStart(index, block) =>
      (match block
       case TextBlock(text) => if text != [] then [C.TextDelta(text)] else []
       case ToolUseBlock(id, name) => [C.ToolCallStart(index, id, name)]
       case ThinkingBlock(thinking) => if thinking != [] then [C.ReasoningDelta(thinking)] else []
       case ToolResultBlock(_) => [])
    case ContentBlockDelta(index, delta) =>
      (match delta
       case TextPiece(text) => [C.TextDelta(text)]
       case ThinkingPiece(thinking) => [C.ReasoningDelta(thinking)]
       case InputJsonPiece(partial) => [C.ToolCallArgsDelta(index, partial)])
    case ContentBlockStop(_) => []
    case Ping => []
    case MessageDelta(stopReason, usage) =>
      [C.UsageEvent(UsageOf(usage))]
      + (if stopReason.Some? then [C.MessageEnd(Mapping.AnthropicStopToCanonical(stopReason.value))] else [])
    case MessageStop => [C.Done]
    case ErrorEvent(message) => [C.ErrorEvent(500, message)]
  }

  /** Stateless decoding never closes a tool call: only the stateful
      decoder, which knows the block kind, does. */
  lemma DecodeNeverEndsToolCall(ev: WireEvent)
    ensures forall k | 0 <= k < |Decode(ev)| :: !Decode(ev)[k].ToolCallEnd?
  {
  }

  /** A stop reason the canonical encoder writes comes back through a
      `message_delta`, except content filtering, which comes back as the
      end of the turn. */
  lemma StopReasonRoundTrip(reason: C.StopReason, usage: WireUsage)
    ensures Decode(MessageDelta(Some(Mapping.CanonicalStopToAnthropic(reason)), usage))
      == [C.UsageEvent(UsageOf(usage)), C.MessageEnd(if reason == C.ContentFilter then C.EndOfTurn else reason)]
  {
  }

  // ---------------------------------------------------------------------
  // The stateful decoder

  /** `BlockType`: the kind of a content block, as the stateful decoder
      records it. */
  datatype BlockType = TextKind | ThinkingKind | ToolUseKind | ToolResultKind

  function KindOf(block: ContentBlock): BlockType {
    match block
    case TextBlock(_) => TextKind
    case ThinkingBlock(_) => ThinkingKind
    case ToolUseBlock(_, _) => ToolUseKind
    case ToolResultBlock(_) => ToolResultKind
  }

  /** The table after `resize(index + 1, None)` when it is too short, then
      `table[index] = Some(kind)`. */
  function Record(table: seq<Option<BlockType>>, index: nat, kind: BlockType): (r: seq<Option<BlockType>>)
    ensures |r| == if index < |table| then |table| else index + 1
    ensures r[index] == Some(kind)
    ensures forall j | 0 <= j < |r| && j != index :: r[j] == if j < |table| then table[j] else None
  {
    var grown := if index >= |table| then table + seq(index + 1 - |table|, _ => None) else table;
    grown[index := Some(kind)]
  }

  /** The table after `get_mut(index).and_then(Option::take)`, and what the
      take returned. */
  function Take(table: seq<Option<BlockType>>, index: nat): (r: (seq<Option<BlockType>>, Option<BlockType>))
    ensures |r.0| == |table|
    ensures r.1 == if index < |table| then table[index] else None
    ensures forall j | 0 <= j < |table| :: r.0[j] == if j == index then None else table[j]
  {
    if index < |table| then (table[index := None], table[index]) else (table, None)
  }

  /** `StatefulAnthropicStreamDecoder::decode_into` on the block table: the
      new table and the events emitted. */
  function DecodeStep(table: seq<Option<BlockType>>, ev: WireEvent): (r: (seq<Option<BlockType>>, seq<C.StreamEvent>))
    ensures !ev.ContentBlockStart? && !ev.ContentBlockStop? ==> r == (table, Decode(ev))
    ensures ev.ContentBlockStart? ==> r == (Record(table, ev.index, KindOf(ev.block)), Decode(ev))
    ensures ev.ContentBlockStop? ==>
      r.0 == Take(table, ev.index).0
      && (r.1 == [C.ToolCallEnd(ev.index, None, None)] <==> ev.index < |table| && table[ev.index] == Some(ToolUseKind))
      && (r.1 == [] <==> !(ev.index < |table| && table[ev.index] == Some(ToolUseKind)))
  {
    match ev
    case ContentBlockStart(index, block) => (Record(table, index, KindOf(block)), Decode(ev))
    case ContentBlockStop(index) =>
      var (t, taken) := Take(table, index);
      (t, if taken == Some(ToolUseKind) then [C.ToolCallEnd(index, None, None)] else [])
    case _ => (table, Decode(ev))
  }

  /** A tool-use block opened and then stopped is closed exactly once:
      the first stop emits `ToolCallEnd`, a second one emits nothing. */
  lemma ToolUseStopsOnce(table: seq<Option<BlockType>>, index: nat, id: bytes, name: bytes)
    ensures var s1 := DecodeStep(table, ContentBlockStart(index, ToolUseBlock(id, name)));
      var s2 := DecodeStep(s1.0, ContentBlockStop(index));
      var s3 := DecodeStep(s2.0, ContentBlockStop(index));
      s1.1 == [C.ToolCallStart(index, id, name)]
      && s2.1 == [C.ToolCallEnd(index, None, None)]
      && s3.1 == []
  {
    var s1 := DecodeStep(table, ContentBlockStart(index, ToolUseBlock(id, name)));
    assert s1.0[index] == Some(ToolUseKind);
    var s2 := DecodeStep(s1.0, ContentBlockStop(index));
    assert s2.0[index] == None;
  }

  /** A block of any other kind emits nothing when it stops. */
  lemma OtherBlockStopsSilently(table: seq<Option<BlockType>>, index: nat, block: ContentBlock)
    requires !block.ToolUseBlock?
    ensures var s1 := DecodeStep(table, ContentBlockStart(index, block));
      DecodeStep(s1.0, ContentBlockStop(index)).1 == []
  {
    var s1 := DecodeStep(table, ContentBlockStart(index, block));
    assert s1.0[index] == Some(KindOf(block));
  }

  /** Decoding a whole stream from a table. */
  function DecodeAll(table: seq<Option<BlockType>>, evs: seq<WireEvent>): (r: (seq<Option<BlockType>>, seq<C.StreamEvent>))
    decreases |evs|
  {
    if evs == [] then (table, [])
    else
      var s := DecodeStep(table, evs[0]);
      var rest := DecodeAll(s.0, evs[1..]);
      (rest.0, s.1 + rest.1)
  }

  /** How many `ToolCallEnd`s for `index` are among the events. */
  function EndsAt(out: seq<C.StreamEvent>, index: nat): nat
    decreases |out|
  {
    if out == [] then 0
    else (if out[0].ToolCallEnd? && out[0].index == index then 1 else 0) + EndsAt(out[1..], index)
  }

  /** How many tool-use blocks are opened at `index` in the wire stream. */
  function ToolUseStartsAt(evs: seq<WireEvent>, index: nat): nat
    decreases |evs|
  {
    if evs == [] then 0
    else
      (if evs[0].ContentBlockStart? && evs[0].index == index && evs[0].block.ToolUseBlock? then 1 else 0)
      + ToolUseStartsAt(evs[1..], index)
  }

  /** Whether the table holds an open tool-use block at `index`. */
  function OpenToolUse(table: seq<Option<BlockType>>, index: nat): nat {
    if index < |table| && table[index] == Some(ToolUseKind) then 1 else 0
  }

  lemma {:induction false} EndsAtAppend(a: seq<C.StreamEvent>, b: seq<C.StreamEvent>, index: nat)
    ensures EndsAt(a + b, index) == EndsAt(a, index) + EndsAt(b, index)
    decreases |a|
  {
    if a != [] {
      assert (a + b)[0] == a[0] && (a + b)[1..] == a[1..] + b;
      EndsAtAppend(a[1..], b, index);
    } else {
      assert a + b == b;
    }
  }

  /** One step keeps the balance: ends emitted plus the open slot grow no
      faster than tool-use starts. */
  lemma StepBalance(table: seq<Option<BlockType>>, ev: WireEvent, index: nat)
    ensures var s := DecodeStep(table, ev);
      EndsAt(s.1, index) + OpenToolUse(s.0, index)
        <= OpenToolUse(table, index) + (if ev.ContentBlockStart? && ev.index == index && ev.block.ToolUseBlock? then 1 else 0)
  {
    var s := DecodeStep(table, ev);
    match ev
    case ContentBlockStart(i, block) =>
      DecodeNeverEndsToolCall(ev);
      NoEnds(s.1, index);
    case ContentBlockStop(i) =>
      if s.1 == [] {
        assert EndsAt(s.1, index) == 0;
      } else {
        assert EndsAt(s.1, index) == (if i == index then 1 else 0) + EndsAt([], index);
      }
    case _ =>
      DecodeNeverEndsToolCall(ev);
      NoEnds(s.1, index);
  }

  lemma {:induction false} NoEnds(out: seq<C.StreamEvent>, index: nat)
    requires forall k | 0 <= k < |out| :: !out[k].ToolCallEnd?
    ensures EndsAt(out, index) == 0
    decreases |out|
  {
    if out != [] {
      NoEnds(out[1..], index);
    }
  }

  /** Over any stream, the decoder closes a tool call at an index at most
      once per tool-use block opened there (plus the one already open). */
  lemma {:induction false} EndsNeverOutnumberStarts(table: seq<Option<BlockType>>, evs: seq<WireEvent>, index: nat)
    ensures var r := DecodeAll(table, evs);
      EndsAt(r.1, index) + OpenToolUse(r.0, index) <= OpenToolUse(table, index) + ToolUseStartsAt(evs, index)
    decreases |evs|
  {
    if evs != [] {
      var s := DecodeStep(table, evs[0]);
      var rest := DecodeAll(s.0, evs[1..]);
      StepBalance(table, evs[0], index);
      EndsNeverOutnumberStarts(s.0, evs[1..], index);
      EndsAtAppend(s.1, rest.1, index);
    }
  }

  /** From a fresh decoder, there are never more `ToolCallEnd`s at an index
      than tool-use blocks opened there. */
  lemma FreshDecoderEndsMatchStarts(evs: seq<WireEvent>, index: nat)
    ensures EndsAt(DecodeAll([], evs).1, index) <= ToolUseStartsAt(evs, index)
  {
    EndsNeverOutnumberStarts([], evs, index);
  }

  /** `StatefulAnthropicStreamDecoder`: the kind of each open content
      block, by index. */
  class StatefulDecoder {
    var blockTypes: seq<Option<BlockType>>

    constructor ()
      ensures blockTypes == []
    {
      blockTypes := [];
    }

    /** `decode_into`: append the events of `ev` to `out`. */
    method DecodeInto(ev: WireEvent, out: seq<C.StreamEvent>) returns (out': seq<C.StreamEvent>)
      modifies this
      ensures blockTypes == DecodeStep(old(blockTypes), ev).0
      ensures out' == out + DecodeStep(old(blockTypes), ev).1
    {
      match ev {
        case ContentBlockStart(index, block) =>
          if index >= |blockTypes| {
            blockTypes := blockTypes + seq(index + 1 - |blockTypes|, _ => None);
          }
          blockTypes := blockTypes[index := Some(KindOf(block))];
          out' := out + Decode(ev);
        case ContentBlockStop(index) =>
          var taken: Option<BlockType> := None;
          if index < |blockTypes| {
            taken := blockTypes[index];
            blockTypes := blockTypes[index := None];
          }
          out' := out;
          if taken == Some(ToolUseKind) {
            out' := out' + [C.ToolCallEnd(index, None, None)];
          }
        case _ =>
          out' := out + Decode(ev);
      }
    }

    /** `set_block_type_for_fast_path`: record a tool-use block, or a text
      block for any other kind. */
    method SetBlockTypeForFastPath(index: nat, isToolUse: bool)
      modifies this
      ensures blockTypes == Record(old(blockTypes), index, if isToolUse then ToolUseKind else TextKind)
    {
      if index >= |blockTypes| {
        blockTypes := blockTypes + seq(index + 1 - |blockTypes|, _ => None);
      }
      blockTypes := blockTypes[index := Some(if isToolUse then ToolUseKind else TextKind)];
    }
  }

  // ---------------------------------------------------------------------
  // Encoding

  // The JSON text both encoders write, piece by piece.
  const MESSAGE_START_HEAD: bytes := "{\"type\":\"message_start\",\"message\":{\"id\":"
  const MESSAGE_START_MODEL: bytes := ",\"type\":\"message\",\"role\":\"assistant\",\"model\":"
  const MESSAGE_START_TAIL: bytes := ",\"usage\":{\"input_tokens\":0,\"output_tokens\":0}}}"
  const TEXT_DELTA_HEAD: bytes := "{\"type\":\"content_block_delta\",\"index\":0,\"delta\":{\"type\":\"text_delta\",\"text\":"
  const THINKING_DELTA_HEAD: bytes := "{\"type\":\"content_block_delta\",\"index\":0,\"delta\":{\"type\":\"thinking_delta\",\"thinking\":"
  const TOOL_USE_HEAD: bytes := "{\"type\":\"content_block_start\",\"index\":"
  const TOOL_USE_ID: bytes := ",\"content_block\":{\"type\":\"tool_use\",\"id\":"
  const TOOL_USE_NAME: bytes := ",\"name\":"
  const TOOL_USE_TAIL: bytes := ",\"input\":{}}}"
  const ARGS_DELTA_HEAD: bytes := "{\"type\":\"content_block_delta\",\"index\":"
  const ARGS_DELTA_JSON: bytes := ",\"delta\":{\"type\":\"input_json_delta\",\"partial_json\":"
  const BLOCK_STOP_HEAD: bytes := "{\"type\":\"content_block_stop\",\"index\":"
  const MESSAGE_DELTA_HEAD: bytes := "{\"type\":\"message_delta\",\"delta\":{\"stop_reason\":"
  const MESSAGE_DELTA_TAIL: bytes := ",\"stop_sequence\":null},\"usage\":{\"input_tokens\":0,\"output_tokens\":0}}"
  const MESSAGE_STOP_JSON: bytes := "{\"type\":\"message_stop\"}"
  const TOOL_RESULT_HEAD: bytes := "{\"type\":\"content_block_start\",\"index\":0,\"content_block\":{\"type\":\"tool_result\",\"tool_use_id\":"
  const TOOL_RESULT_CONTENT: bytes := ",\"content\":"
  const ERROR_HEAD: bytes := "{\"type\":\"error\",\"error\":{\"type\":\"api_error\",\"message\":"

  /** `encode_canonical_event_to_anthropic_sse_into`: the `(event name,
      JSON)` pairs of a canonical event; a usage event has none. */
  function Pairs(e: C.StreamEvent, model: bytes, id: bytes): seq<(bytes, bytes)> {
    match e
    case MessageStart(_) =>
      [("message_start", MESSAGE_START_HEAD + Util.JsonQuoted(id) + MESSAGE_START_MODEL + Util.JsonQuoted(model) + MESSAGE_START_TAIL)]
    case TextDelta(text) =>
      [("content_block_delta", TEXT_DELTA_HEAD + Util.JsonQuoted(text) + "}}")]
    case ReasoningDelta(text) =>
      [("content_block_delta", THINKING_DELTA_HEAD + Util.JsonQuoted(text) + "}}")]
    case ToolCallStart(index, callId, name) =>
      [("content_block_start", TOOL_USE_HEAD + Util.Decimal(index) + TOOL_USE_ID + Util.JsonQuoted(callId)
        + TOOL_USE_NAME + Util.JsonQuoted(name) + TOOL_USE_TAIL)]
    case ToolCallArgsDelta(index, delta) =>
      [("content_block_delta", ARGS_DELTA_HEAD + Util.Decimal(index) + ARGS_DELTA_JSON + Util.JsonQuoted(delta) + "}}")]
    case ToolCallEnd(index, _, _) =>
      [("content_block_stop", BLOCK_STOP_HEAD + Util.Decimal(index) + "}")]
    case UsageEvent(_) => []
    case MessageEnd(reason) =>
      [("message_delta", MESSAGE_DELTA_HEAD + Util.JsonQuoted(Mapping.CanonicalStopToAnthropic(reason)) + MESSAGE_DELTA_TAIL)]
    case Done => [("message_stop", MESSAGE_STOP_JSON)]
    case ToolResultEvent(toolCallId, content) =>
      [("content_block_start", TOOL_RESULT_HEAD + Util.JsonQuoted(toolCallId) + TOOL_RESULT_CONTENT + Util.JsonQuoted(content) + "}}")]
    case ErrorEvent(_, message) =>
      [("error", ERROR_HEAD + Util.JsonQuoted(message) + "}}")]
  }

  /** Every canonical event but usage has exactly one pair. */
  lemma OnePairUnlessUsage(e: C.StreamEvent, model: bytes, id: bytes)
    ensures |Pairs(e, model, id)| == if e.UsageEvent? then 0 else 1
  {
  }

  /** A frame that is the `event:` line of a pair's name and `data: `, then
      the pair's JSON, then a blank line, is the pair's rendering. */
  lemma Framed(e: C.StreamEvent, model: bytes, id: bytes, head: bytes, out: bytes)
    requires Pairs(e, model, id) != []
    requires head == "event: " + Pairs(e, model, id)[0].0 + "\n" + "data: "
    requires out == head + Pairs(e, model, id)[0].1 + "\n\n"
    ensures out == Sse.AnthropicSseFrame(Pairs(e, model, id)[0].0, Pairs(e, model, id)[0].1)
  {
  }

  /** `encode_canonical_event_to_anthropic_sse_frame`: writes the whole
      frame and reports whether it wrote one. The source's literals that
      span the `event:` line, the `data: ` prefix and the JSON head, or the
      JSON tail and the blank line, are pushed here in those pieces, which
      write the same bytes. The frame is the pair encoder's pair rendered as
      `event: {name}\ndata: {json}\n\n`, and a usage event writes nothing. */
  method EncodeFrame(e: C.StreamEvent, model: bytes, id: bytes) returns (produced: bool, out: bytes)
    ensures produced <==> Pairs(e, model, id) != []
    ensures produced ==> out == Sse.AnthropicSseFrame(Pairs(e, model, id)[0].0, Pairs(e, model, id)[0].1)
    ensures !produced ==> out == []
  {
    out := [];
    match e {
      case MessageStart(_) =>
        produced := true;
        out := WriteStartFrame(e, model, id);
      case TextDelta(_) =>
        produced := true;
        out := WriteDeltaFrame(e, model, id);
      case ReasoningDelta(_) =>
        produced := true;
        out := WriteDeltaFrame(e, model, id);
      case ToolCallStart(_, _, _) =>
        produced := true;
        out := WriteStartFrame(e, model, id);
      case ToolCallArgsDelta(_, _) =>
        produced := true;
        out := WriteDeltaFrame(e, model, id);
      case ToolCallEnd(index, _, _) =>
        var head := "event: " + "content_block_stop" + "\n" + "data: ";
        out := out + head;
        out := out + BLOCK_STOP_HEAD;
        out := out + Util.Decimal(index);
        out := out + "}";
        out := out + "\n\n";
        produced := true;
        Pushed3(head, BLOCK_STOP_HEAD, Util.Decimal(index), "}", "\n\n");
        Framed(e, model, id, head, out);
      case UsageEvent(_) =>
        produced := false;
      case MessageEnd(reason) =>
        var head := "event: " + "message_delta" + "\n" + "data: ";
        out := out + head;
        out := out + MESSAGE_DELTA_HEAD;
        out := out + Util.JsonQuoted(Mapping.CanonicalStopToAnthropic(reason));
        out := out + MESSAGE_DELTA_TAIL;
        out := out + "\n\n";
        produced := true;
        Pushed3(head, MESSAGE_DELTA_HEAD, Util.JsonQuoted(Mapping.CanonicalStopToAnthropic(reason)), MESSAGE_DELTA_TAIL, "\n\n");
        Framed(e, model, id, head, out);
      case Done =>
        var head := "event: " + "message_stop" + "\n" + "data: ";
        out := out + head;
        out := out + MESSAGE_STOP_JSON;
        out := out + "\n\n";
        produced := true;
        Framed(e, model, id, head, out);
      case ToolResultEvent(_, _) =>
        produced := true;
        out := WriteStartFrame(e, model, id);
      case ErrorEvent(_, message) =>
        var head := "event: " + "error" + "\n" + "data: ";
        out := out + head;
        out := out + ERROR_HEAD;
        out := out + Util.JsonQuoted(message);
        out := out + "}}";
        out := out + "\n\n";
        produced := true;
        Pushed3(head, ERROR_HEAD, Util.JsonQuoted(message), "}}", "\n\n");
        Framed(e, model, id, head, out);
    }
  }

  /** The frame that opens the message or a content block. */
  method WriteStartFrame(e: C.StreamEvent, model: bytes, id: bytes) returns (out: bytes)
    requires e.MessageStart? || e.ToolCallStart? || e.ToolResultEvent?
    ensures Pairs(e, model, id) != []
    ensures out == Sse.AnthropicSseFrame(Pairs(e, model, id)[0].0, Pairs(e, model, id)[0].1)
  {
    out := [];
    match e {
      case MessageStart(_) =>
        var head := "event: " + "message_start" + "\n" + "data: ";
        out := out + head;
        out := out + MESSAGE_START_HEAD;
        out := out + Util.JsonQuoted(id);
        out := out + MESSAGE_START_MODEL;
        out := out + Util.JsonQuoted(model);
        out := out + MESSAGE_START_TAIL;
        out := out + "\n\n";
        Pushed5(head, MESSAGE_START_HEAD, Util.JsonQuoted(id), MESSAGE_START_MODEL, Util.JsonQuoted(model), MESSAGE_START_TAIL, "\n\n");
        Framed(e, model, id, head, out);
      case ToolCallStart(index, callId, name) =>
        var head := "event: " + "content_block_start" + "\n" + "data: ";
        out := out + head;
        out := out + TOOL_USE_HEAD;
        out := out + Util.Decimal(index);
        out := out + TOOL_USE_ID;
        out := out + Util.JsonQuoted(callId);
        out := out + TOOL_USE_NAME;
        out := out + Util.JsonQuoted(name);
        out := out + TOOL_USE_TAIL;
        out := out + "\n\n";
        Pushed7(head, TOOL_USE_HEAD, Util.Decimal(index), TOOL_USE_ID, Util.JsonQuoted(callId), TOOL_USE_NAME, Util.JsonQuoted(name), TOOL_USE_TAIL, "\n\n");
        Framed(e, model, id, head, out);
      case ToolResultEvent(toolCallId, content) =>
        var head := "event: " + "content_block_start" + "\n" + "data: ";
        out := out + head;
        out := out + TOOL_RESULT_HEAD;
        out := out + Util.JsonQuoted(toolCallId);
        out := out + TOOL_RESULT_CONTENT;
        out := out + Util.JsonQuoted(content);
        out := out + "}}";
        out := out + "\n\n";
        Pushed5(head, TOOL_RESULT_HEAD, Util.JsonQuoted(toolCallId), TOOL_RESULT_CONTENT, Util.JsonQuoted(content), "}}", "\n\n");
        Framed(e, model, id, head, out);
    }
  }

  /** The frame of a content block delta. */
  method WriteDeltaFrame(e: C.StreamEvent, model: bytes, id: bytes) returns (out: bytes)
    requires e.TextDelta? || e.ReasoningDelta? || e.ToolCallArgsDelta?
    ensures Pairs(e, model, id) != []
    ensures out == Sse.AnthropicSseFrame(Pairs(e, model, id)[0].0, Pairs(e, model, id)[0].1)
  {
    out := [];
    match e {
      case TextDelta(text) =>
        var head := "event: " + "content_block_delta" + "\n" + "data: ";
        out := out + head;
        out := out + TEXT_DELTA_HEAD;
        out := out + Util.JsonQuoted(text);
        out := out + "}}";
        out := out + "\n\n";
        Pushed3(head, TEXT_DELTA_HEAD, Util.JsonQuoted(text), "}}", "\n\n");
        Framed(e, model, id, head, out);
      case ReasoningDelta(text) =>
        var head := "event: " + "content_block_delta" + "\n" + "data: ";
        out := out + head;
        out := out + THINKING_DELTA_HEAD;
        out := out + Util.JsonQuoted(text);
        out := out + "}}";
        out := out + "\n\n";
        Pushed3(head, THINKING_DELTA_HEAD, Util.JsonQuoted(text), "}}", "\n\n");
        Framed(e, model, id, head, out);
      case ToolCallArgsDelta(index, delta) =>
        var head := "event: " + "content_block_delta" + "\n" + "data: ";
        out := out + head;
        out := out + ARGS_DELTA_HEAD;
        out := out + Util.Decimal(index);
        out := out + ARGS_DELTA_JSON;
        out := out + Util.JsonQuoted(delta);
        out := out + "}}";
        out := out + "\n\n";
        Pushed5(head, ARGS_DELTA_HEAD, Util.Decimal(index), ARGS_DELTA_JSON, Util.JsonQuoted(delta), "}}", "\n\n");
        Framed(e, model, id, head, out);
    }
  }
}
