/** `src/protocol/openai_responses/stream.rs`: OpenAI Responses stream
    events decoded into canonical stream events, and canonical events
    encoded as `(event name, JSON)` pairs or as whole SSE frames. Tool
    results are numbered per tool call id by a table the encoders update. */
module ResponsesStream {
  import opened Wrappers
  import opened Bytes
  import opened Ints
  import Util
  import Sse
  import JsonScan
  import Probe
  import C = Canonical

  // ---------------------------------------------------------------------
  // Wire events

  /** `ResponsesOutputItem`, with the fields the decoder reads. */
  datatype OutputItem =
    | MessageItem
    | FunctionCallItem(callId: bytes, name: bytes)
    | FunctionCallOutputItem(callId: bytes, output: bytes)

  datatype ResponsesUsage = ResponsesUsage(inputTokens: u64, outputTokens: u64, totalTokens: Option<u64>)

  /** The `response` object of a `response.completed` event. */
  datatype ResponsesOutput = ResponsesOutput(output: seq<OutputItem>, usage: Option<ResponsesUsage>)

  /** `ResponsesStreamEvent`, with the fields the decoder reads. */
  datatype WireEvent =
    | ResponseCreated
    | ResponseInProgress
    | ResponseCompleted(response: ResponsesOutput)
    | OutputItemAdded(outputIndex: nat, item: OutputItem)
    | OutputItemDone(outputIndex: nat, item: OutputItem)
    | ContentPartAdded
    | ContentPartDone
    | OutputTextDelta(outputIndex: nat, contentIndex: nat, delta: bytes)
    | OutputTextDone
    | FunctionCallArgumentsDelta(outputIndex: nat, delta: bytes)
    | FunctionCallArgumentsDone
    | ErrorEvent(message: bytes)

  /** The `type` tag each wire event carries. */
  function TypeName(ev: WireEvent): bytes {
    match ev
    case ResponseCreated => "response.created"
    case ResponseInProgress => "response.in_progress"
    case ResponseCompleted(_) => "response.completed"
    case OutputItemAdded(_, _) => "response.output_item.added"
    case OutputItemDone(_, _) => "response.output_item.done"
    case ContentPartAdded => "response.content_part.added"
    case ContentPartDone => "response.content_part.done"
    case OutputTextDelta(_, _, _) => "response.output_text.delta"
    case OutputTextDone => "response.output_text.done"
    case FunctionCallArgumentsDelta(_, _) => "response.function_call_arguments.delta"
    case FunctionCallArgumentsDone => "response.function_call_arguments.done"
    case ErrorEvent(_) => "error"
  }

  // ---------------------------------------------------------------------
  // Decoding

  /** The canonical usage of a completed response: both counts, and the
      reported total or else their sum as a release build adds two `u64`s. */
  function UsageOf(u: ResponsesUsage): (r: C.Usage)
    ensures r.inputTokens == Some(u.inputTokens) && r.outputTokens == Some(u.outputTokens)
    ensures u.totalTokens.Some? ==> r.totalTokens == u.totalTokens
    ensures u.totalTokens.None? && u.inputTokens + u.outputTokens < U64_LIMIT
      ==> r.totalTokens == Some(u.inputTokens + u.outputTokens)
  {
    var total := match u.totalTokens
      case Some(t) => t
      case None => WrappingAdd(u.inputTokens, u.outputTokens);
    C.Usage(Some(u.inputTokens), Some(u.outputTokens), Some(total))
  }

  predicate IsToolItem(item: OutputItem) {
    item.FunctionCallItem? || item.FunctionCallOutputItem?
  }

  /** Whether a completed response holds a function call or a function
      call output. */
  function HasToolItem(items: seq<OutputItem>): (r: bool)
    ensures r <==> exists k | 0 <= k < |items| :: IsToolItem(items[k])
  {
    if items == [] then false
    else IsToolItem(items[0]) || HasToolItem(items[1..])
  }

  /** `decode_responses_stream_event_into`: the canonical events one wire
      event stands for. A completed response ends the message (with
      `ToolCalls` exactly when its output holds a tool item) and the
      stream; a text part, a finished text or finished arguments stand for
      nothing. */
  function Decode(ev: WireEvent): (r: seq<C.StreamEvent>)
    ensures |r| <= 3
    ensures ev.ResponseCreated? ==> r == [C.MessageStart(C.Assistant)]
    ensures (ev.ResponseInProgress? || ev.ContentPartAdded? || ev.ContentPartDone?
             || ev.OutputTextDone? || ev.FunctionCallArgumentsDone?) ==> r == []
    ensures ev.ResponseCompleted? ==>
      |r| == (if ev.response.usage.Some? then 3 else 2)
      && r[|r| - 1] == C.Done
      && r[|r| - 2].MessageEnd?
      && (r[|r| - 2].stopReason == C.ToolCalls
          <==> exists k | 0 <= k < |ev.response.output| :: IsToolItem(ev.response.output[k]))
      && (r[|r| - 2].stopReason != C.ToolCalls ==> r[|r| - 2].stopReason == C.EndOfTurn)
      && (ev.response.usage.Some? ==> r[0] == C.UsageEvent(UsageOf(ev.response.usage.value)))
    ensures ev.OutputItemAdded? ==>
      (r != [] <==> ev.item.FunctionCallItem?)
      && (ev.item.FunctionCallItem? ==> r == [C.ToolCallStart(ev.outputIndex, ev.item.callId, ev.item.name)])
    ensures ev.OutputItemDone? && ev.item.FunctionCallItem? ==>
      r == [C.ToolCallEnd(ev.outputIndex, Some(ev.item.callId), Some(ev.item.name))]
    ensures ev.OutputItemDone? && ev.item.FunctionCallOutputItem? ==>
      r == [C.ToolResultEvent(ev.item.callId, ev.item.output)]
    ensures ev.OutputItemDone? && ev.item.MessageItem? ==> r == []
    ensures ev.OutputTextDelta? ==> r == [C.TextDelta(ev.delta)]
    ensures ev.FunctionCallArgumentsDelta? ==> r == [C.ToolCallArgsDelta(ev.outputIndex, ev.delta)]
    ensures ev.ErrorEvent? ==> r == [C.ErrorEvent(500, ev.message)]
  {
    match ev
    case ResponseCreated => [C.MessageStart(C.Assistant)]
    case ResponseInProgress => []
    case ContentPartAdded => []
    case ContentPartDone => []
    case OutputTextDone => []
    case FunctionCallArgumentsDone => []
    case OutputItemAdded(index, item) =>
      (match item
       case FunctionCallItem(callId, name) => [C.ToolCallStart(index, callId, name)]
       case _ => [])
    case OutputItemDone(index, item) =>
      (match item
       case FunctionCallItem(callId, name) => [C.ToolCallEnd(index, Some(callId), Some(name))]
       case FunctionCallOutputItem(callId, output) => [C.ToolResultEvent(callId, output)]
       case MessageItem => [])
    case OutputTextDelta(_, _, delta) => [C.TextDelta(delta)]
    case FunctionCallArgumentsDelta(index, delta) => [C.ToolCallArgsDelta(index, delta)]
    case ResponseCompleted(response) =>
      (if response.usage.Some? then [C.UsageEvent(UsageOf(response.usage.value))] else [])
      + [C.MessageEnd(if HasToolItem(response.output) then C.ToolCalls else C.EndOfTurn), C.Done]
    case ErrorEvent(message) => [C.ErrorEvent(500, message)]
  }

  // ---------------------------------------------------------------------
  // Tool result numbering

  /** `next_tool_result_sequence` on the table's value: a call id seen
      before gets the number after its last one, a new id gets 0; no other
      entry changes. */
  function NextSequence(seqs: map<bytes, nat>, id: bytes): (r: (map<bytes, nat>, nat))
    ensures r.0.Keys == seqs.Keys + {id}
    ensures r.0[id] == r.1
    ensures r.1 == if id in seqs then seqs[id] + 1 else 0
    ensures forall x | x in seqs && x != id :: r.0[x] == seqs[x]
  {
    if id in seqs then (seqs[id := seqs[id] + 1], seqs[id] + 1)
    else (seqs[id := 0], 0)
  }

  /** What encoding one canonical event does to the table, and the number
      it hands out (used only by a tool result). */
  function SequenceStep(seqs: map<bytes, nat>, e: C.StreamEvent): (map<bytes, nat>, nat) {
    if e.ToolResultEvent? then NextSequence(seqs, e.toolCallId) else (seqs, 0)
  }

  /** The `tool_result_seq` map the encoders share across one stream. */
  class ToolResultSequences {
    var seqs: map<bytes, nat>

    constructor ()
      ensures seqs == map[]
    {
      seqs := map[];
    }

    /** `next_tool_result_sequence`. */
    method Next(id: bytes) returns (n: nat)
      modifies this
      ensures (seqs, n) == NextSequence(old(seqs), id)
    {
      if id in seqs {
        n := seqs[id] + 1;
        seqs := seqs[id := n];
      } else {
        seqs := seqs[id := 0];
        n := 0;
      }
    }
  }

  /** How many times `x` occurs in `ids`. */
  function Count(ids: seq<bytes>, x: bytes): nat {
    if ids == [] then 0
    else Count(ids[..|ids| - 1], x) + (if ids[|ids| - 1] == x then 1 else 0)
  }

  /** The table after numbering `ids` in order from an empty one, and the
      number each got. */
  function SequencesFor(ids: seq<bytes>): (r: (map<bytes, nat>, seq<nat>))
    ensures |r.1| == |ids|
  {
    if ids == [] then (map[], [])
    else
      var prev := SequencesFor(ids[..|ids| - 1]);
      var next := NextSequence(prev.0, ids[|ids| - 1]);
      (next.0, prev.1 + [next.1])
  }

  /** Numbering from an empty table gives each tool result the number of
      earlier results with the same call id; the table holds the ids seen,
      each with its count less one. */
  lemma {:induction false} SequencesCount(ids: seq<bytes>)
    ensures forall x :: x in SequencesFor(ids).0 <==> Count(ids, x) > 0
    ensures forall x | x in SequencesFor(ids).0 :: SequencesFor(ids).0[x] == Count(ids, x) - 1
    ensures forall j | 0 <= j < |ids| :: SequencesFor(ids).1[j] == Count(ids[..j], ids[j])
  {
    if ids != [] {
      var pre := ids[..|ids| - 1];
      SequencesCount(pre);
      forall j | 0 <= j < |ids|
        ensures SequencesFor(ids).1[j] == Count(ids[..j], ids[j])
      {
        if j < |pre| {
          assert ids[..j] == pre[..j];
        } else {
          assert ids[..j] == pre;
        }
      }
    }
  }

  /** A later occurrence of an id has been seen at least once more. */
  lemma {:induction false} CountGrows(ids: seq<bytes>, j: nat, k: nat)
    requires j < k <= |ids|
    ensures Count(ids[..k], ids[j]) >= Count(ids[..j], ids[j]) + 1
    decreases k
  {
    if k == j + 1 {
      assert ids[..k][..j] == ids[..j];
    } else {
      CountGrows(ids, j, k - 1);
      assert ids[..k][..k - 1] == ids[..k - 1];
    }
  }

  /** The `id` of a function call output item: `fco_{call id}_{number}`. */
  function FcoId(id: bytes, n: nat): bytes {
    "fco_" + id + "_" + Util.Decimal(n)
  }

  /** The number after the last `_` is all digits, so the item id gives
      back its call id and number. */
  lemma FcoIdInjective(a: bytes, m: nat, b: bytes, n: nat)
    requires FcoId(a, m) == FcoId(b, n)
    ensures a == b && m == n
  {
    var da, db := Util.Decimal(m), Util.Decimal(n);
    Util.DecimalRoundTrip(m);
    Util.DecimalRoundTrip(n);
    var s := FcoId(a, m);
    var l := |s|;
    assert s == ("fco_" + a + "_") + da;
    assert s == ("fco_" + b + "_") + db;
    assert s[l - |da| - 1] == '_' && s[l - |db| - 1] == '_';
    assert forall i | l - |da| <= i < l :: s[i] == da[i - (l - |da|)];
    assert forall i | l - |db| <= i < l :: s[i] == db[i - (l - |db|)];
    assert |da| == |db|;
    assert da == s[l - |da|..] == db;
    assert a == s[4..l - |da| - 1] == b;
  }

  /** Within one stream every tool result gets its own item id. */
  lemma DistinctItemIds(ids: seq<bytes>, j: nat, k: nat)
    requires j < k < |ids|
    ensures FcoId(ids[j], SequencesFor(ids).1[j]) != FcoId(ids[k], SequencesFor(ids).1[k])
  {
    SequencesCount(ids);
    if ids[j] == ids[k] {
      CountGrows(ids, j, k);
    }
    if FcoId(ids[j], SequencesFor(ids).1[j]) == FcoId(ids[k], SequencesFor(ids).1[k]) {
      FcoIdInjective(ids[j], SequencesFor(ids).1[j], ids[k], SequencesFor(ids).1[k]);
    }
  }

  /** The item id token as the source writes it: the call id is copied
      between the quotes without escaping. */
  function AsWrittenItemIdToken(id: bytes, n: nat): bytes {
    "\"fco_" + id + "_" + Util.Decimal(n) + "\""
  }

  /** With a `"` in the call id the token is not one JSON string: for the
      call id `a"b` the string ends after `fco_a`, and `b_0"` follows. */
  lemma AsWrittenItemIdEndsEarly()
    ensures var t := AsWrittenItemIdToken("a\"b", 0);
      JsonScan.StringEnd(t, 0) == Some(7) && 7 < |t|
  {
    var t := AsWrittenItemIdToken("a\"b", 0);
    assert t == ['"', 'f', 'c', 'o', '_', 'a', '"', 'b', '_', '0', '"'];
    assert JsonScan.StringScan(t, 6) == Some(7);
    assert JsonScan.StringScan(t, 1) == Some(7);
  }

  /** The item id token of the model: the JSON literal of the item id. */
  function ItemIdToken(id: bytes, n: nat): bytes {
    Util.JsonQuoted(FcoId(id, n))
  }

  /** The token is one JSON string, and it reads back as the item id. */
  lemma ItemIdReadsBack(id: bytes, n: nat)
    ensures var t := ItemIdToken(id, n);
      JsonScan.StringEnd(t, 0) == Some(|t|) && Util.UnescapeBody(t[1..|t| - 1]) == Some(FcoId(id, n))
  {
    var v := FcoId(id, n);
    var t := ItemIdToken(id, n);
    assert t[1..|t| - 1] == Util.EscapeBody(v);
    Probe.EscapeBodyScans(v);
    JsonScan.StringEndExact(t, 0, |t|);
    Util.UnescapeEscape(v);
  }

  /** For a call id with nothing to escape the two tokens are the same
      bytes. */
  lemma AsWrittenAgreesWhenPlain(id: bytes, n: nat)
    requires Util.NothingToEscape(id)
    ensures AsWrittenItemIdToken(id, n) == ItemIdToken(id, n)
  {
    var d := Util.Decimal(n);
    Util.DecimalRoundTrip(n);
    assert Util.NothingToEscape(d) by {
      forall k | 0 <= k < |d| ensures !Util.NeedsEscape(d[k]) {
        assert IsDigit(d[k]);
      }
    }
    var fco: bytes := "fco_";
    var sep: bytes := "_";
    assert Util.NothingToEscape(fco) && Util.NothingToEscape(sep);
    Util.NothingToEscapeConcat(fco, id);
    Util.NothingToEscapeConcat(fco + id, sep);
    Util.NothingToEscapeConcat(fco + id + sep, d);
    var v := FcoId(id, n);
    assert v == fco + id + sep + d;
    var q: bytes := "\"";
    assert AsWrittenItemIdToken(id, n) == q + v + q by {
      assert "\"fco_" == q + fco;
      Quoted(q, fco, id, sep, d);
    }
    Util.EscapeBodyPlain(v);
  }

  /** Regrouping the pieces of a quoted item id. */
  lemma Quoted(q: bytes, fco: bytes, id: bytes, sep: bytes, d: bytes)
    ensures (q + fco) + id + sep + d + q == q + (fco + id + sep + d) + q
  {
  }

  // ---------------------------------------------------------------------
  // Encoding

  // The JSON text both encoders write, piece by piece.
  const ENVELOPE_TYPE: bytes := "{\"type\":"
  const ENVELOPE_ID: bytes := ",\"response\":{\"id\":"
  const ENVELOPE_MODEL: bytes := ",\"object\":\"response\",\"model\":"
  const ENVELOPE_STATUS: bytes := ",\"output\":[],\"status\":"
  const TEXT_DELTA_HEAD: bytes := "{\"type\":\"response.output_text.delta\",\"output_index\":0,\"content_index\":0,\"delta\":"
  const ITEM_ADDED_HEAD: bytes := "{\"type\":\"response.output_item.added\",\"output_index\":"
  const ITEM_DONE_HEAD: bytes := "{\"type\":\"response.output_item.done\",\"output_index\":"
  const FUNCTION_CALL_ID: bytes := ",\"item\":{\"type\":\"function_call\",\"id\":\"fc_"
  const FUNCTION_CALL_CALL_ID: bytes := "\",\"call_id\":"
  const FUNCTION_CALL_NAME: bytes := ",\"name\":"
  const FUNCTION_CALL_TAIL: bytes := ",\"arguments\":\"\"}}"
  const ARGS_DELTA_HEAD: bytes := "{\"type\":\"response.function_call_arguments.delta\",\"output_index\":"
  const ARGS_DELTA_DELTA: bytes := ",\"delta\":"
  const OUTPUT_ITEM_HEAD: bytes := "{\"type\":\"response.output_item.added\",\"output_index\":0,\"item\":{\"type\":\"function_call_output\",\"id\":"
  const OUTPUT_ITEM_CALL_ID: bytes := ",\"call_id\":"
  const OUTPUT_ITEM_OUTPUT: bytes := ",\"output\":"
  const ERROR_HEAD: bytes := "{\"type\":\"error\",\"message\":"

  /** `build_response_envelope_data`: the response object of a created or
      completed event, with an empty output. */
  function Envelope(model: bytes, responseId: bytes, eventType: bytes, status: bytes): bytes {
    ENVELOPE_TYPE + Util.JsonQuoted(eventType) + ENVELOPE_ID + Util.JsonQuoted(responseId)
    + ENVELOPE_MODEL + Util.JsonQuoted(model) + ENVELOPE_STATUS + Util.JsonQuoted(status) + "}}"
  }

  /** `encode_canonical_event_to_responses_sse_with_state_into`: the pairs
      of a canonical event, given the number the table hands a tool result.
      Usage, the end of the message and reasoning have none; a tool call
      end without an id or a name writes empty strings. */
  function Pairs(e: C.StreamEvent, model: bytes, responseId: bytes, n: nat): seq<(bytes, bytes)> {
    match e
    case MessageStart(_) =>
      [("response.created", Envelope(model, responseId, "response.created", "in_progress"))]
    case TextDelta(text) =>
      [("response.output_text.delta", TEXT_DELTA_HEAD + Util.JsonQuoted(text) + "}")]
    case ToolCallStart(index, id, name) =>
      [("response.output_item.added", ITEM_ADDED_HEAD + Util.Decimal(index) + FUNCTION_CALL_ID + Util.Decimal(index)
        + FUNCTION_CALL_CALL_ID + Util.JsonQuoted(id) + FUNCTION_CALL_NAME + Util.JsonQuoted(name) + FUNCTION_CALL_TAIL)]
    case ToolCallArgsDelta(index, delta) =>
      [("response.function_call_arguments.delta", ARGS_DELTA_HEAD + Util.Decimal(index) + ARGS_DELTA_DELTA + Util.JsonQuoted(delta) + "}")]
    case ToolCallEnd(index, callId, callName) =>
      [("response.output_item.done", ITEM_DONE_HEAD + Util.Decimal(index) + FUNCTION_CALL_ID + Util.Decimal(index)
        + FUNCTION_CALL_CALL_ID + Util.JsonQuoted(callId.GetOr("")) + FUNCTION_CALL_NAME + Util.JsonQuoted(callName.GetOr(""))
        + FUNCTION_CALL_TAIL)]
    case ToolResultEvent(toolCallId, content) =>
      [("response.output_item.added", OUTPUT_ITEM_HEAD + ItemIdToken(toolCallId, n) + OUTPUT_ITEM_CALL_ID
        + Util.JsonQuoted(toolCallId) + OUTPUT_ITEM_OUTPUT + Util.JsonQuoted(content) + "}}")]
    case UsageEvent(_) => []
    case MessageEnd(_) => []
    case ReasoningDelta(_) => []
    case Done =>
      [("response.completed", Envelope(model, responseId, "response.completed", "completed"))]
    case ErrorEvent(_, message) =>
      [("error", ERROR_HEAD + Util.JsonQuoted(message) + "}")]
  }

  /** Every canonical event but usage, the end of the message and
      reasoning has exactly one pair. */
  lemma OnePairUnlessSilent(e: C.StreamEvent, model: bytes, responseId: bytes, n: nat)
    ensures |Pairs(e, model, responseId, n)| == if e.UsageEvent? || e.MessageEnd? || e.ReasoningDelta? then 0 else 1
  {
  }

  /** The wire event a pair stands for, as the Responses API reads it. */
  function WireOf(e: C.StreamEvent): Option<WireEvent> {
    match e
    case MessageStart(_) => Some(ResponseCreated)
    case TextDelta(text) => Some(OutputTextDelta(0, 0, text))
    case ToolCallStart(index, id, name) => Some(OutputItemAdded(index, FunctionCallItem(id, name)))
    case ToolCallArgsDelta(index, delta) => Some(FunctionCallArgumentsDelta(index, delta))
    case ToolCallEnd(index, callId, callName) =>
      Some(OutputItemDone(index, FunctionCallItem(callId.GetOr(""), callName.GetOr(""))))
    case ToolResultEvent(toolCallId, content) => Some(OutputItemAdded(0, FunctionCallOutputItem(toolCallId, content)))
    case UsageEvent(_) => None
    case MessageEnd(_) => None
    case ReasoningDelta(_) => None
    case Done => Some(ResponseCompleted(ResponsesOutput([], None)))
    case ErrorEvent(_, message) => Some(ErrorEvent(message))
  }

  /** Each pair is named by the `type` of the wire event it stands for. */
  lemma PairNamedByWireType(e: C.StreamEvent, model: bytes, responseId: bytes, n: nat)
    ensures WireOf(e).Some? <==> Pairs(e, model, responseId, n) != []
    ensures WireOf(e).Some? ==> Pairs(e, model, responseId, n)[0].0 == TypeName(WireOf(e).value)
  {
    OnePairUnlessSilent(e, model, responseId, n);
    if WireOf(e).Some? {
      PairName(e, model, responseId, n);
    }
  }

  /** The name of an event's one pair is the `type` of its wire event. */
  lemma PairName(e: C.StreamEvent, model: bytes, responseId: bytes, n: nat)
    requires WireOf(e).Some?
    ensures Pairs(e, model, responseId, n) != [] && Pairs(e, model, responseId, n)[0].0 == TypeName(WireOf(e).value)
  {
    match e
    case MessageStart(_) =>
    case TextDelta(_) =>
    case ToolCallStart(_, _, _) =>
    case ToolCallArgsDelta(_, _) =>
    case ToolCallEnd(_, _, _) =>
    case ToolResultEvent(_, _) =>
    case Done =>
    case ErrorEvent(_, _) =>
  }

  /** Decoding what the encoder writes gives the event back, with three
      exceptions: the role becomes the assistant, the end of the stream
      also ends the turn, and a tool result, written as an added item, is
      not read back (the decoder reads tool results from done items). */
  lemma ReadBack(e: C.StreamEvent)
    ensures e.TextDelta? || e.ToolCallStart? || e.ToolCallArgsDelta? ==> Decode(WireOf(e).value) == [e]
    ensures e.ToolCallEnd? && e.callId.Some? && e.callName.Some? ==> Decode(WireOf(e).value) == [e]
    ensures e.MessageStart? ==> Decode(WireOf(e).value) == [C.MessageStart(C.Assistant)]
    ensures e.ErrorEvent? ==> Decode(WireOf(e).value) == [C.ErrorEvent(500, e.message)]
    ensures e.Done? ==> Decode(WireOf(e).value) == [C.MessageEnd(C.EndOfTurn), C.Done]
    ensures e.ToolResultEvent? ==> Decode(WireOf(e).value) == []
  {
  }

  /** A frame that is the `event:` line of a pair's name and `data: `, then
      the pair's JSON, then a blank line, is the pair's rendering. */
  lemma Framed(e: C.StreamEvent, model: bytes, responseId: bytes, n: nat, head: bytes, out: bytes)
    requires Pairs(e, model, responseId, n) != []
    requires head == "event: " + Pairs(e, model, responseId, n)[0].0 + "\n" + "data: "
    requires out == head + Pairs(e, model, responseId, n)[0].1 + "\n\n"
    ensures out == Sse.AnthropicSseFrame(Pairs(e, model, responseId, n)[0].0, Pairs(e, model, responseId, n)[0].1)
  {
  }

  /** `encode_canonical_event_to_responses_sse_with_state_into`: numbers a
      tool result in the table and returns the event's pairs. */
  method EncodePairs(e: C.StreamEvent, model: bytes, responseId: bytes, table: ToolResultSequences)
    returns (pairs: seq<(bytes, bytes)>)
    modifies table
    ensures table.seqs == SequenceStep(old(table.seqs), e).0
    ensures pairs == Pairs(e, model, responseId, SequenceStep(old(table.seqs), e).1)
  {
    var n := 0;
    if e.ToolResultEvent? {
      n := table.Next(e.toolCallId);
    }
    pairs := Pairs(e, model, responseId, n);
  }

  /** `encode_canonical_event_to_responses_sse_frame_with_state`: writes the
      whole frame and reports whether it wrote one. The source's literals
      that span the `event:` line, the `data: ` prefix and the JSON head, or
      the JSON tail and the blank line, are pushed here in those pieces,
      which write the same bytes. The frame is the pair encoder's pair
      rendered as `event: {name}\ndata: {json}\n\n`, and an event without a
      pair writes nothing. */
  method EncodeFrame(e: C.StreamEvent, model: bytes, responseId: bytes, table: ToolResultSequences)
    returns (produced: bool, out: bytes)
    modifies table
    ensures table.seqs == SequenceStep(old(table.seqs), e).0
    ensures produced <==> Pairs(e, model, responseId, SequenceStep(old(table.seqs), e).1) != []
    ensures produced ==> out == Sse.AnthropicSseFrame(
      Pairs(e, model, responseId, SequenceStep(old(table.seqs), e).1)[0].0,
      Pairs(e, model, responseId, SequenceStep(old(table.seqs), e).1)[0].1)
    ensures !produced ==> out == []
  {
    var n := 0;
    if e.ToolResultEvent? {
      n := table.Next(e.toolCallId);
    }
    produced, out := WriteFrame(e, model, responseId, n);
  }

  /** The frame writing itself, once a tool result has its number. */
  method WriteFrame(e: C.StreamEvent, model: bytes, responseId: bytes, n: nat) returns (produced: bool, out: bytes)
    ensures produced <==> Pairs(e, model, responseId, n) != []
    ensures produced ==> out == Sse.AnthropicSseFrame(Pairs(e, model, responseId, n)[0].0, Pairs(e, model, responseId, n)[0].1)
    ensures !produced ==> out == []
  {
    out := [];
    match e {
      case MessageStart(_) =>
        produced := true;
        out := WriteEnvelopeFrame(e, model, responseId, n);
      case TextDelta(text) =>
        var head := "event: " + "response.output_text.delta" + "\n" + "data: ";
        out := out + head;
        out := out + TEXT_DELTA_HEAD;
        out := out + Util.JsonQuoted(text);
        out := out + "}";
        out := out + "\n\n";
        produced := true;
        Pushed3(head, TEXT_DELTA_HEAD, Util.JsonQuoted(text), "}", "\n\n");
        Framed(e, model, responseId, n, head, out);
      case ToolCallStart(_, _, _) =>
        produced := true;
        out := WriteCallFrame(e, model, responseId, n);
      case ToolCallArgsDelta(_, _) =>
        produced := true;
        out := WriteItemFrame(e, model, responseId, n);
      case ToolCallEnd(_, _, _) =>
        produced := true;
        out := WriteCallFrame(e, model, responseId, n);
      case ToolResultEvent(_, _) =>
        produced := true;
        out := WriteItemFrame(e, model, responseId, n);
      case UsageEvent(_) =>
        produced := false;
      case MessageEnd(_) =>
        produced := false;
      case ReasoningDelta(_) =>
        produced := false;
      case Done =>
        produced := true;
        out := WriteEnvelopeFrame(e, model, responseId, n);
      case ErrorEvent(_, message) =>
        var head := "event: " + "error" + "\n" + "data: ";
        out := out + head;
        out := out + ERROR_HEAD;
        out := out + Util.JsonQuoted(message);
        out := out + "}";
        out := out + "\n\n";
        produced := true;
        Pushed3(head, ERROR_HEAD, Util.JsonQuoted(message), "}", "\n\n");
        Framed(e, model, responseId, n, head, out);
    }
  }

  /** The frame of the start or the end of the response. */
  method WriteEnvelopeFrame(e: C.StreamEvent, model: bytes, responseId: bytes, n: nat) returns (out: bytes)
    requires e.MessageStart? || e.Done?
    ensures Pairs(e, model, responseId, n) != []
    ensures out == Sse.AnthropicSseFrame(Pairs(e, model, responseId, n)[0].0, Pairs(e, model, responseId, n)[0].1)
  {
    out := [];
    match e {
      case MessageStart(_) =>
        var head := "event: " + "response.created" + "\n" + "data: ";
        out := out + head;
        out := out + ENVELOPE_TYPE;
        out := out + Util.JsonQuoted("response.created");
        out := out + ENVELOPE_ID;
        out := out + Util.JsonQuoted(responseId);
        out := out + ENVELOPE_MODEL;
        out := out + Util.JsonQuoted(model);
        out := out + ENVELOPE_STATUS;
        out := out + Util.JsonQuoted("in_progress");
        out := out + "}}";
        out := out + "\n\n";
        Pushed9(head, ENVELOPE_TYPE, Util.JsonQuoted("response.created"), ENVELOPE_ID, Util.JsonQuoted(responseId),
          ENVELOPE_MODEL, Util.JsonQuoted(model), ENVELOPE_STATUS, Util.JsonQuoted("in_progress"), "}}", "\n\n");
        Framed(e, model, responseId, n, head, out);
      case Done =>
        var head := "event: " + "response.completed" + "\n" + "data: ";
        out := out + head;
        out := out + ENVELOPE_TYPE;
        out := out + Util.JsonQuoted("response.completed");
        out := out + ENVELOPE_ID;
        out := out + Util.JsonQuoted(responseId);
        out := out + ENVELOPE_MODEL;
        out := out + Util.JsonQuoted(model);
        out := out + ENVELOPE_STATUS;
        out := out + Util.JsonQuoted("completed");
        out := out + "}}";
        out := out + "\n\n";
        Pushed9(head, ENVELOPE_TYPE, Util.JsonQuoted("response.completed"), ENVELOPE_ID, Util.JsonQuoted(responseId),
          ENVELOPE_MODEL, Util.JsonQuoted(model), ENVELOPE_STATUS, Util.JsonQuoted("completed"), "}}", "\n\n");
        Framed(e, model, responseId, n, head, out);
    }
  }

  /** The frame of the start or the end of a tool call. */
  method WriteCallFrame(e: C.StreamEvent, model: bytes, responseId: bytes, n: nat) returns (out: bytes)
    requires e.ToolCallStart? || e.ToolCallEnd?
    ensures Pairs(e, model, responseId, n) != []
    ensures out == Sse.AnthropicSseFrame(Pairs(e, model, responseId, n)[0].0, Pairs(e, model, responseId, n)[0].1)
  {
    out := [];
    match e {
      case ToolCallStart(index, id, name) =>
        var head := "event: " + "response.output_item.added" + "\n" + "data: ";
        out := out + head;
        out := out + ITEM_ADDED_HEAD;
        out := out + Util.Decimal(index);
        out := out + FUNCTION_CALL_ID;
        out := out + Util.Decimal(index);
        out := out + FUNCTION_CALL_CALL_ID;
        out := out + Util.JsonQuoted(id);
        out := out + FUNCTION_CALL_NAME;
        out := out + Util.JsonQuoted(name);
        out := out + FUNCTION_CALL_TAIL;
        out := out + "\n\n";
        Pushed9(head, ITEM_ADDED_HEAD, Util.Decimal(index), FUNCTION_CALL_ID, Util.Decimal(index),
          FUNCTION_CALL_CALL_ID, Util.JsonQuoted(id), FUNCTION_CALL_NAME, Util.JsonQuoted(name), FUNCTION_CALL_TAIL, "\n\n");
        Framed(e, model, responseId, n, head, out);
      case ToolCallEnd(index, callId, callName) =>
        var id := callId.GetOr("");
        var name := callName.GetOr("");
        var head := "event: " + "response.output_item.done" + "\n" + "data: ";
        out := out + head;
        out := out + ITEM_DONE_HEAD;
        out := out + Util.Decimal(index);
        out := out + FUNCTION_CALL_ID;
        out := out + Util.Decimal(index);
        out := out + FUNCTION_CALL_CALL_ID;
        out := out + Util.JsonQuoted(id);
        out := out + FUNCTION_CALL_NAME;
        out := out + Util.JsonQuoted(name);
        out := out + FUNCTION_CALL_TAIL;
        out := out + "\n\n";
        Pushed9(head, ITEM_DONE_HEAD, Util.Decimal(index), FUNCTION_CALL_ID, Util.Decimal(index),
          FUNCTION_CALL_CALL_ID, Util.JsonQuoted(id), FUNCTION_CALL_NAME, Util.JsonQuoted(name), FUNCTION_CALL_TAIL, "\n\n");
        Framed(e, model, responseId, n, head, out);
    }
  }

  /** The frame of a tool call's argument delta or of a tool result. */
  method WriteItemFrame(e: C.StreamEvent, model: bytes, responseId: bytes, n: nat) returns (out: bytes)
    requires e.ToolCallArgsDelta? || e.ToolResultEvent?
    ensures Pairs(e, model, responseId, n) != []
    ensures out == Sse.AnthropicSseFrame(Pairs(e, model, responseId, n)[0].0, Pairs(e, model, responseId, n)[0].1)
  {
    out := [];
    match e {
      case ToolCallArgsDelta(index, delta) =>
        var head := "event: " + "response.function_call_arguments.delta" + "\n" + "data: ";
        out := out + head;
        out := out + ARGS_DELTA_HEAD;
        out := out + Util.Decimal(index);
        out := out + ARGS_DELTA_DELTA;
        out := out + Util.JsonQuoted(delta);
        out := out + "}";
        out := out + "\n\n";
        Pushed5(head, ARGS_DELTA_HEAD, Util.Decimal(index), ARGS_DELTA_DELTA, Util.JsonQuoted(delta), "}", "\n\n");
        Framed(e, model, responseId, n, head, out);
      case ToolResultEvent(toolCallId, content) =>
        var head := "event: " + "response.output_item.added" + "\n" + "data: ";
        out := out + head;
        out := out + OUTPUT_ITEM_HEAD;
        out := out + ItemIdToken(toolCallId, n);
        out := out + OUTPUT_ITEM_CALL_ID;
        out := out + Util.JsonQuoted(toolCallId);
        out := out + OUTPUT_ITEM_OUTPUT;
        out := out + Util.JsonQuoted(content);
        out := out + "}}";
        out := out + "\n\n";
        Pushed7(head, OUTPUT_ITEM_HEAD, ItemIdToken(toolCallId, n), OUTPUT_ITEM_CALL_ID, Util.JsonQuoted(toolCallId),
          OUTPUT_ITEM_OUTPUT, Util.JsonQuoted(content), "}}", "\n\n");
        Framed(e, model, responseId, n, head, out);
    }
  }
}
