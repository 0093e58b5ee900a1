/** The streaming function-call processor (`StreamingFcProcessor`,
    `src/stream/mod.rs`): it sits between the decoded upstream events and
    the client encoder, feeds text through the trigger detector, holds back
    the upstream end of the message while function calling is active, and
    at the end of the stream either turns the buffered calls into tool-call
    events or hands the buffer on as text.

    The transcoder is split into its two halves: the decoded upstream
    events are the input of a frame, and the client encoder is a parameter
    (`Encoder`). The processor's own state is a class; what one frame and
    the end of the stream do to it is given by the functions `EventsStep`
    and `FinalizeSpec`, and the properties are lemmas about them. */
module FcStream {
  import opened Wrappers
  import opened Bytes
  import opened Ints
  import opened JsonValue
  import C = Canonical
  import D = Detector
  import P = FcParser
  import Util
  import Transcoder
  import StreamFrame

  /** `encode_client_event`: the client's bytes for one event, or None when
      the client dialect has nothing to send for it. */
  type Encoder = C.StreamEvent -> Option<bytes>

  /** `serde_json::to_string` on a JSON value. */
  type Serializer = Json -> Option<bytes>

  // ---------------------------------------------------------------------
  // Encoding a run of events

  /** The bytes one event adds to the output. */
  function One(encode: Encoder, ev: C.StreamEvent): seq<bytes> {
    match encode(ev)
    case Some(b) => [b]
    case None => []
  }

  /** The output for a run of events: each encodable one, in order. */
  function Encoded(encode: Encoder, evs: seq<C.StreamEvent>): seq<bytes>
    decreases |evs|
  {
    if evs == [] then []
    else Encoded(encode, evs[..|evs| - 1]) + One(encode, evs[|evs| - 1])
  }

  lemma EncodedSnoc(encode: Encoder, evs: seq<C.StreamEvent>, ev: C.StreamEvent)
    ensures Encoded(encode, evs + [ev]) == Encoded(encode, evs) + One(encode, ev)
  {
    assert (evs + [ev])[..|evs|] == evs;
  }

  /** Encoding distributes over concatenation. */
  lemma {:induction false} EncodedAppend(encode: Encoder, a: seq<C.StreamEvent>, b: seq<C.StreamEvent>)
    ensures Encoded(encode, a + b) == Encoded(encode, a) + Encoded(encode, b)
    decreases |b|
  {
    if b == [] {
      assert a + b == a;
    } else {
      var front := b[..|b| - 1];
      var last := b[|b| - 1];
      assert Encoded(encode, a + b) == Encoded(encode, a + front) + One(encode, last) by {
        assert a + b == (a + front) + [last];
        EncodedSnoc(encode, a + front, last);
      }
      assert Encoded(encode, b) == Encoded(encode, front) + One(encode, last) by {
        assert b == front + [last];
        EncodedSnoc(encode, front, last);
      }
      EncodedAppend(encode, a, front);
    }
  }

  /** When the last event of a run has an encoding, the output ends with
      it: with termination synthesised, the output ends with the encoded
      `Done`. */
  lemma EncodedEndsWith(encode: Encoder, evs: seq<C.StreamEvent>)
    requires evs != [] && encode(evs[|evs| - 1]).Some?
    ensures var out := Encoded(encode, evs);
      out != [] && out[|out| - 1] == encode(evs[|evs| - 1]).value
  {
  }

  /** `push` of an encoded event onto the output, with the events pushed so
      far kept alongside. */
  method Push(output: seq<bytes>, ghost evs: seq<C.StreamEvent>, encode: Encoder, ev: C.StreamEvent)
    returns (r: seq<bytes>, ghost evs': seq<C.StreamEvent>)
    requires output == Encoded(encode, evs)
    ensures evs' == evs + [ev] && r == Encoded(encode, evs')
  {
    evs' := evs + [ev];
    EncodedSnoc(encode, evs, ev);
    var e := encode(ev);
    if e.Some? {
      r := output + [e.value];
    } else {
      r := output;
    }
  }

  // ---------------------------------------------------------------------
  // Tool-call events

  /** The arguments of a parsed call as `parsed_call_arguments_delta`
      gives them, the serialiser applied to the parsed value. */
  function ArgumentsDelta(arguments: Json, argumentsJson: Option<bytes>, serialize: Serializer): bytes {
    StreamFrame.ParsedCallArgumentsDelta(argumentsJson, serialize(arguments))
  }

  const CALL_ID_PREFIX: bytes := "call_"

  /** The number of hexadecimal digits of a generated call id. */
  const CALL_ID_DIGITS: nat := 16

  /** The id of a parsed call: the parser's, or `next_call_id` drawn from
      the counter at `next`. */
  function CallId(c: P.ParsedToolCall, next: u64): (id: bytes)
    ensures c.id.Some? ==> id == c.id.value
    ensures c.id.None? ==> CALL_ID_PREFIX <= id
  {
    if c.id.Some? then c.id.value else CALL_ID_PREFIX + Util.HexFixed(next, CALL_ID_DIGITS)
  }

  /** The counter after a call: it moves on only when an id was drawn. */
  function CounterAfter(c: P.ParsedToolCall, next: u64): u64 {
    if c.id.Some? then next else (next + 1) % U64_LIMIT
  }

  /** The three events of one call under one index. */
  function CallTriple(c: P.ParsedToolCall, index: nat, id: bytes, serialize: Serializer): (r: seq<C.StreamEvent>)
    ensures |r| == 3
  {
    [C.ToolCallStart(index, id, c.name),
     C.ToolCallArgsDelta(index, ArgumentsDelta(c.arguments, c.argumentsJson, serialize)),
     C.ToolCallEnd(index, None, None)]
  }

  /** The events emitted for a run of parsed calls, the tool-call index
      after them and the call-id counter after them. */
  datatype Emission = Emission(events: seq<C.StreamEvent>, index: nat, next: u64)

  /** What `emit_parsed_tool_calls_into` emits before its final
      `MessageEnd`: per call, a start, the arguments and an end, all under
      the running index; a call without an id draws one from the counter. */
  function CallEvents(calls: seq<P.ParsedToolCall>, index: nat, next: u64, serialize: Serializer): (t: Emission)
    decreases |calls|
  {
    if calls == [] then Emission([], index, next)
    else
      var prev := CallEvents(calls[..|calls| - 1], index, next, serialize);
      var c := calls[|calls| - 1];
      Emission(prev.events + CallTriple(c, prev.index, CallId(c, prev.next), serialize),
        prev.index + 1, CounterAfter(c, prev.next))
  }

  /** What the three events of a call say: a start under the index with
      the call's name and an id that is the parser's or a fresh `call_` id,
      the arguments (the raw JSON text when the parser kept it), an end. */
  lemma CallTripleShape(c: P.ParsedToolCall, index: nat, next: u64, serialize: Serializer)
    ensures var r := CallTriple(c, index, CallId(c, next), serialize);
      && r[0].ToolCallStart? && r[0].index == index && r[0].name == c.name
      && (c.id.Some? ==> r[0].id == c.id.value)
      && (c.id.None? ==> CALL_ID_PREFIX <= r[0].id)
      && r[1] == C.ToolCallArgsDelta(index, ArgumentsDelta(c.arguments, c.argumentsJson, serialize))
      && (c.argumentsJson.Some? ==> r[1].delta == c.argumentsJson.value)
      && r[2] == C.ToolCallEnd(index, None, None)
  {
  }

  /** Events `3 * k` to `3 * k + 2` are the three events of call `k`,
      under index `index + k`; the id is the parser's when it read one and
      a fresh `call_` id otherwise. */
  predicate ShapedAt(events: seq<C.StreamEvent>, calls: seq<P.ParsedToolCall>, index: nat, serialize: Serializer, k: nat) {
    && k < |calls| && 3 * k + 3 <= |events|
    && events[3 * k].ToolCallStart?
    && events[3 * k] == C.ToolCallStart(index + k, events[3 * k].id, calls[k].name)
    && events[3 * k + 1] == C.ToolCallArgsDelta(index + k, ArgumentsDelta(calls[k].arguments, calls[k].argumentsJson, serialize))
    && events[3 * k + 2] == C.ToolCallEnd(index + k, None, None)
    && (calls[k].id.Some? ==> events[3 * k].id == calls[k].id.value)
    && (calls[k].id.None? ==> CALL_ID_PREFIX <= events[3 * k].id)
  }

  lemma ShapedAtFront(a: seq<C.StreamEvent>, b: seq<C.StreamEvent>, front: seq<P.ParsedToolCall>,
                      calls: seq<P.ParsedToolCall>, index: nat, serialize: Serializer, k: nat)
    requires ShapedAt(a, front, index, serialize, k) && k < |calls| && calls[k] == front[k]
    ensures ShapedAt(a + b, calls, index, serialize, k)
  {
    assert (a + b)[3 * k] == a[3 * k];
    assert (a + b)[3 * k + 1] == a[3 * k + 1];
    assert (a + b)[3 * k + 2] == a[3 * k + 2];
  }

  lemma ShapedAtBack(a: seq<C.StreamEvent>, calls: seq<P.ParsedToolCall>, index: nat, next: u64, serialize: Serializer)
    requires |a| == 3 * (|calls| - 1) && calls != []
    ensures var k := |calls| - 1;
      ShapedAt(a + CallTriple(calls[k], index + k, CallId(calls[k], next), serialize), calls, index, serialize, k)
  {
    var k := |calls| - 1;
    var triple := CallTriple(calls[k], index + k, CallId(calls[k], next), serialize);
    assert (a + triple)[3 * k] == triple[0];
    assert (a + triple)[3 * k + 1] == triple[1];
    assert (a + triple)[3 * k + 2] == triple[2];
  }

  /** Three events per call, and the index moves on by one per call. */
  lemma {:induction false} CallEventsLength(calls: seq<P.ParsedToolCall>, index: nat, next: u64, serialize: Serializer)
    ensures var t := CallEvents(calls, index, next, serialize);
      |t.events| == 3 * |calls| && t.index == index + |calls|
    decreases |calls|
  {
    if calls != [] {
      CallEventsLength(calls[..|calls| - 1], index, next, serialize);
    }
  }

  /** The last call becomes the last three events. */
  lemma CallEventsLast(calls: seq<P.ParsedToolCall>, index: nat, next: u64, serialize: Serializer)
    requires calls != []
    ensures ShapedAt(CallEvents(calls, index, next, serialize).events, calls, index, serialize, |calls| - 1)
  {
    var n := |calls| - 1;
    var front := calls[..n];
    CallEventsLength(front, index, next, serialize);
    var prev := CallEvents(front, index, next, serialize);
    var triple := CallTriple(calls[n], prev.index, CallId(calls[n], prev.next), serialize);
    assert CallEvents(calls, index, next, serialize).events == prev.events + triple;
    assert |front| == n && prev.index == index + n;
    ShapedAtBack(prev.events, calls, index, prev.next, serialize);
    assert ShapedAt(prev.events + triple, calls, index, serialize, n);
  }

  /** Call `k` becomes events `3 * k` to `3 * k + 2`. */
  lemma {:induction false} CallEventsAt(calls: seq<P.ParsedToolCall>, index: nat, next: u64, serialize: Serializer, k: nat)
    requires k < |calls|
    ensures ShapedAt(CallEvents(calls, index, next, serialize).events, calls, index, serialize, k)
    decreases |calls|
  {
    var n := |calls| - 1;
    if k < n {
      var front := calls[..n];
      var prev := CallEvents(front, index, next, serialize);
      var triple := CallTriple(calls[n], prev.index, CallId(calls[n], prev.next), serialize);
      assert CallEvents(calls, index, next, serialize).events == prev.events + triple;
      assert ShapedAt(prev.events, front, index, serialize, k) by {
        CallEventsAt(front, index, next, serialize, k);
      }
      ShapedAtFront(prev.events, triple, front, calls, index, serialize, k);
    } else {
      CallEventsLast(calls, index, next, serialize);
    }
  }

  /** Each parsed call becomes its three events, in order, under its own
      index, the index rising by one per call; the id is the parser's when
      it read one and a fresh `call_` id otherwise. */
  lemma CallEventsShape(calls: seq<P.ParsedToolCall>, index: nat, next: u64, serialize: Serializer)
    ensures var t := CallEvents(calls, index, next, serialize);
      && |t.events| == 3 * |calls| && t.index == index + |calls|
      && forall k | 0 <= k < |calls| :: ShapedAt(t.events, calls, index, serialize, k)
  {
    CallEventsLength(calls, index, next, serialize);
    forall k | 0 <= k < |calls|
      ensures ShapedAt(CallEvents(calls, index, next, serialize).events, calls, index, serialize, k)
    {
      CallEventsAt(calls, index, next, serialize, k);
    }
  }

  /** A start, an argument delta or an end of a tool call. */
  predicate IsCallEvent(e: C.StreamEvent) {
    e.ToolCallStart? || e.ToolCallArgsDelta? || e.ToolCallEnd?
  }

  /** The tool-call events are only starts, argument deltas and ends: no
      end of message and no `Done` among them. */
  lemma {:induction false} CallEventsKinds(calls: seq<P.ParsedToolCall>, index: nat, next: u64, serialize: Serializer)
    ensures forall e | e in CallEvents(calls, index, next, serialize).events :: IsCallEvent(e)
    decreases |calls|
  {
    if calls != [] {
      var n := |calls| - 1;
      CallEventsKinds(calls[..n], index, next, serialize);
      var prev := CallEvents(calls[..n], index, next, serialize);
      var triple := CallTriple(calls[n], prev.index, CallId(calls[n], prev.next), serialize);
      assert IsCallEvent(triple[0]) && IsCallEvent(triple[1]) && IsCallEvent(triple[2]);
      assert CallEvents(calls, index, next, serialize).events == prev.events + triple;
    }
  }

  // ---------------------------------------------------------------------
  // One decoded frame

  /** The processor's state: the detector's, whether function calling is
      still on, whether the end of the message is synthesised at the end
      of the stream, and the upstream stop reason held back. */
  datatype PState = PState(det: D.Det, fcEnabled: bool, synthesize: bool, pending: Option<C.StopReason>)

  /** The processor starts with termination synthesised exactly when
      function calling is on, and only turns both off together; a stop
      reason is only held while function calling is on. */
  predicate Coherent(s: PState) {
    s.synthesize == s.fcEnabled && (s.pending.Some? ==> s.fcEnabled)
  }

  /** A text delta for the client, unless the text is empty. */
  function TextOut(t: bytes): seq<C.StreamEvent> {
    if t == [] then [] else [C.TextDelta(t)]
  }

  /** One decoded event of `process_decoded_events_into`: the new state and
      the events handed to the encoder. */
  function EventStep(cfg: D.Config, s: PState, ev: C.StreamEvent): (r: (PState, seq<C.StreamEvent>))
    ensures Coherent(s) ==> Coherent(r.0)
    ensures r.0.fcEnabled ==> s.fcEnabled
  {
    match ev
    case TextDelta(text) =>
      if s.fcEnabled then
        var step := D.FeedOwnedStep(cfg, s.det, text);
        var s1 := s.(det := step.det);
        match step.action
        case PassThrough(t) => (s1, TextOut(t))
        case Buffer => (s1, [])
        case TriggerFound(before) => (s1, TextOut(before))
        case BufferOverflow(t) => (s1.(fcEnabled := false, synthesize := false, pending := None), TextOut(t))
      else (s, [ev])
    case MessageEnd(reason) =>
      if s.fcEnabled && s.synthesize then (s.(pending := Some(reason)), []) else (s, [ev])
    case Done =>
      if s.fcEnabled && s.synthesize then (s, []) else (s, [ev])
    case _ => (s, [ev])
  }

  /** The upstream end of the message, held back while termination is
      synthesised. */
  lemma EventStepHeld(cfg: D.Config, s: PState, ev: C.StreamEvent)
    requires (ev.MessageEnd? || ev.Done?) && s.fcEnabled && s.synthesize
    ensures EventStep(cfg, s, ev) == (if ev.MessageEnd? then s.(pending := Some(ev.stopReason)) else s, [])
  {
  }

  /** Every other event that is not text under function calling passes
      through unchanged. */
  lemma EventStepForwarded(cfg: D.Config, s: PState, ev: C.StreamEvent)
    requires !(ev.TextDelta? && s.fcEnabled)
    requires !((ev.MessageEnd? || ev.Done?) && s.fcEnabled && s.synthesize)
    ensures EventStep(cfg, s, ev) == (s, [ev])
  {
  }

  /** A whole decoded frame, event by event. */
  function EventsStep(cfg: D.Config, s: PState, evs: seq<C.StreamEvent>): (r: (PState, seq<C.StreamEvent>))
    ensures Coherent(s) ==> Coherent(r.0)
    ensures r.0.fcEnabled ==> s.fcEnabled
    decreases |evs|
  {
    if evs == [] then (s, [])
    else
      var prev := EventsStep(cfg, s, evs[..|evs| - 1]);
      var last := EventStep(cfg, prev.0, evs[|evs| - 1]);
      (last.0, prev.1 + last.1)
  }

  /** A buffer overflow hands the whole buffer and the new text to the
      client and turns function calling, the synthesised termination and
      the held stop reason off. */
  lemma OverflowDisables(cfg: D.Config, s: PState, text: bytes)
    requires s.fcEnabled
    requires D.FeedOwnedStep(cfg, s.det, text).action.BufferOverflow?
    ensures var r := EventStep(cfg, s, C.TextDelta(text));
      && !r.0.fcEnabled && !r.0.synthesize && r.0.pending == None
      && r.0.det.buffer == []
      && r.1 == TextOut(s.det.buffer + text)
  {
    D.FeedOwnedIsFeed(cfg, s.det, text);
    D.OverflowFlushesAll(cfg, s.det, text);
  }

  /** Once function calling is off, frames pass through untouched: every
      decoded event goes to the encoder and the state stays as it is. */
  lemma {:induction false} DisabledPassesThrough(cfg: D.Config, s: PState, evs: seq<C.StreamEvent>)
    requires !s.fcEnabled
    ensures EventsStep(cfg, s, evs) == (s, evs)
    decreases |evs|
  {
    if evs != [] {
      DisabledPassesThrough(cfg, s, evs[..|evs| - 1]);
      assert evs[..|evs| - 1] + [evs[|evs| - 1]] == evs;
    }
  }

  /** The stop reason of the last `MessageEnd` in a run, else `held`. */
  function LastStop(evs: seq<C.StreamEvent>, held: Option<C.StopReason>): Option<C.StopReason>
    decreases |evs|
  {
    if evs == [] then held
    else if evs[|evs| - 1].MessageEnd? then Some(evs[|evs| - 1].stopReason)
    else LastStop(evs[..|evs| - 1], held)
  }

  /** While function calling stays on, the upstream end of the message and
      `Done` never reach the client; the stop reason held is that of the
      last upstream `MessageEnd`. */
  lemma {:induction false} TerminationHeldBack(cfg: D.Config, s: PState, evs: seq<C.StreamEvent>)
    requires Coherent(s) && s.fcEnabled
    ensures var r := EventsStep(cfg, s, evs);
      r.0.fcEnabled ==>
        && (forall i | 0 <= i < |r.1| :: !r.1[i].MessageEnd? && !r.1[i].Done?)
        && r.0.pending == LastStop(evs, s.pending)
    decreases |evs|
  {
    if evs != [] {
      var front := evs[..|evs| - 1];
      TerminationHeldBack(cfg, s, front);
      var prev := EventsStep(cfg, s, front);
      var last := EventStep(cfg, prev.0, evs[|evs| - 1]);
      if last.0.fcEnabled {
        assert prev.0.fcEnabled && prev.0.synthesize;
        forall i | 0 <= i < |last.1|
          ensures !last.1[i].MessageEnd? && !last.1[i].Done?
        {
        }
      }
    }
  }

  // ---------------------------------------------------------------------
  // The end of the stream

  /** What `finalize_into` leaves behind: the new state, the tool-call
      index, the call-id counter and the events handed to the encoder. */
  datatype Final = Final(state: PState, index: nat, next: u64, events: seq<C.StreamEvent>)

  /** The end of the message when no call was parsed: the upstream stop
      reason held back, else `EndOfTurn`. */
  function HeldStop(s: PState): C.StreamEvent {
    C.MessageEnd(if s.pending.Some? then s.pending.value else C.EndOfTurn)
  }

  /** The synthesised end of the message: while still detecting, the
      leftover text and the held stop; after a trigger, either the parsed
      calls and `ToolCalls`, or the leftover text and the held stop; `Done`
      last in every case. */
  function Closing(parsed: Result<seq<P.ParsedToolCall>, P.ParseError>, serialize: Serializer,
                   detecting: bool, text: bytes, stop: C.StreamEvent, index: nat, next: u64): Emission
  {
    if !detecting && parsed.Ok? && parsed.value != [] then
      var t := CallEvents(parsed.value, index, next, serialize);
      Emission(t.events + [C.MessageEnd(C.ToolCalls), C.Done], t.index, t.next)
    else Emission(TextOut(text) + [stop, C.Done], index, next)
  }

  /** `finalize_into`, given what `parse_function_calls` makes of the
      detector's leftover buffer (`FcParser.ParseSpec`): without
      synthesised termination only the leftover text goes out, otherwise
      the message is closed as `Closing` says. */
  function FinalizeSpec(parsed: Result<seq<P.ParsedToolCall>, P.ParseError>, serialize: Serializer,
                        s: PState, index: nat, next: u64): (f: Final)
    ensures f.state == s.(det := D.FinalizeStep(s.det).0)
  {
    var fin := D.FinalizeStep(s.det);
    var s1 := s.(det := fin.0);
    var text := if fin.1.Some? then fin.1.value else [];
    if !s.synthesize then Final(s1, index, next, TextOut(text))
    else
      var e := Closing(parsed, serialize, s.det.state == D.Detecting, text, HeldStop(s), index, next);
      Final(s1, e.index, e.next, e.events)
  }

  /** Without synthesised termination the end of the stream only flushes
      the detector's buffer as text, and nothing else changes. */
  lemma FinalizeOnlyFlushes(parsed: Result<seq<P.ParsedToolCall>, P.ParseError>, serialize: Serializer,
                             s: PState, index: nat, next: u64)
    requires !s.synthesize
    ensures var f := FinalizeSpec(parsed, serialize, s, index, next);
      && f.events == TextOut(s.det.buffer)
      && f.state.det.buffer == [] && f.index == index && f.next == next
  {
  }

  /** With synthesised termination the end of the stream closes the
      message exactly once and then sends `Done`: nothing before the last
      two events ends the message. Calls parsed from the buffer end it
      with `ToolCalls`; otherwise the whole buffer goes out as text first
      and the message ends with the held stop reason. */
  lemma FinalizeTerminates(parsed: Result<seq<P.ParsedToolCall>, P.ParseError>, serialize: Serializer,
                           s: PState, index: nat, next: u64)
    requires s.synthesize
    ensures var f := FinalizeSpec(parsed, serialize, s, index, next);
      var n := |f.events|;
      && n >= 2 && f.events[n - 1] == C.Done && f.events[n - 2].MessageEnd?
      && (forall i | 0 <= i < n - 2 :: !f.events[i].MessageEnd? && !f.events[i].Done?)
      && f.state.det.buffer == []
      && (f.index == index ==> f.events[..n - 2] == TextOut(s.det.buffer) && f.events[n - 2] == HeldStop(s))
      && (f.index != index ==>
            && s.det.state != D.Detecting && parsed.Ok?
            && f.events[..n - 2] == CallEvents(parsed.value, index, next, serialize).events
            && f.events[n - 2] == C.MessageEnd(C.ToolCalls))
  {
    var f := FinalizeSpec(parsed, serialize, s, index, next);
    var n := |f.events|;
    if s.det.state != D.Detecting && parsed.Ok? && parsed.value != [] {
      CallEventsShape(parsed.value, index, next, serialize);
      CallEventsKinds(parsed.value, index, next, serialize);
      var t := CallEvents(parsed.value, index, next, serialize);
      assert f.events[..n - 2] == t.events;
      forall i | 0 <= i < n - 2
        ensures !f.events[i].MessageEnd? && !f.events[i].Done?
      {
        assert f.events[i] == t.events[i];
        assert IsCallEvent(t.events[i]);
      }
    } else {
      assert f.events[..n - 2] == TextOut(s.det.buffer);
    }
  }

  /** With synthesised termination the client's output for the end of
      the stream ends with the encoded `Done`, whenever the client dialect
      encodes one. */
  lemma FinalOutputEndsWithDone(parsed: Result<seq<P.ParsedToolCall>, P.ParseError>, serialize: Serializer,
                                s: PState, index: nat, next: u64, encode: Encoder)
    requires s.synthesize && encode(C.Done).Some?
    ensures var out := Encoded(encode, FinalizeSpec(parsed, serialize, s, index, next).events);
      out != [] && out[|out| - 1] == encode(C.Done).value
  {
    FinalizeTerminates(parsed, serialize, s, index, next);
    EncodedEndsWith(encode, FinalizeSpec(parsed, serialize, s, index, next).events);
  }

  // ---------------------------------------------------------------------
  // The processor object

  /** `StreamingFcProcessor`: its detector and the flags and counters it
      updates in place. */
  class StreamingFcProcessor {
    const detector: D.StreamingFcDetector
    var fcEnabled: bool
    var pendingStopReason: Option<C.StopReason>
    var synthesizeTermination: bool
    var toolCallIndex: nat

    ghost predicate Valid()
      reads this, detector
    {
      detector.Valid() && Coherent(State())
    }

    function Cfg(): D.Config
      reads detector
    {
      detector.Cfg()
    }

    function State(): PState
      reads this, detector
    {
      PState(detector.Snapshot(), fcEnabled, synthesizeTermination, pendingStopReason)
    }

    /** `StreamingFcProcessor::new`: a fresh detector for the trigger, and
        termination synthesised exactly when function calling is on. */
    constructor (fc: bool, triggerSignal: bytes)
      ensures Valid() && fresh(detector)
      ensures Cfg() == D.Config(triggerSignal, D.DEFAULT_MAX_BUFFER)
      ensures State() == PState(D.FRESH, fc, fc, None) && toolCallIndex == 0
    {
      detector := new D.StreamingFcDetector(triggerSignal);
      fcEnabled := fc;
      pendingStopReason := None;
      synthesizeTermination := fc;
      toolCallIndex := 0;
    }

    /** One iteration of the loop of `process_decoded_events_into`. */
    method ProcessEvent(ev: C.StreamEvent, encode: Encoder, output0: seq<bytes>) returns (output: seq<bytes>)
      requires Valid()
      modifies this, detector
      ensures Valid() && Cfg() == old(Cfg()) && toolCallIndex == old(toolCallIndex)
      ensures var r := EventStep(old(Cfg()), old(State()), ev);
        State() == r.0 && output == output0 + Encoded(encode, r.1)
    {
      ghost var evs: seq<C.StreamEvent> := [];
      output := [];
      if ev.TextDelta? && fcEnabled {
        output, evs := FeedText(ev.text, encode);
      } else if (ev.MessageEnd? || ev.Done?) && fcEnabled && synthesizeTermination {
        EventStepHeld(Cfg(), State(), ev);
        if ev.MessageEnd? {
          pendingStopReason := Some(ev.stopReason);
        }
      } else {
        EventStepForwarded(Cfg(), State(), ev);
        output, evs := Push(output, evs, encode, ev);
      }
      output := output0 + output;
    }

    /** A text delta while function calling is on: the detector decides
        what reaches the client; an overflow turns function calling off. */
    method FeedText(text: bytes, encode: Encoder) returns (output: seq<bytes>, ghost evs: seq<C.StreamEvent>)
      requires Valid() && fcEnabled
      modifies this, detector
      ensures Valid() && Cfg() == old(Cfg()) && toolCallIndex == old(toolCallIndex)
      ensures (State(), evs) == EventStep(old(Cfg()), old(State()), C.TextDelta(text))
      ensures output == Encoded(encode, evs)
    {
      evs := [];
      output := [];
      var action := detector.FeedOwned(text);
      var t := D.Emitted(action);
      if t != [] {
        output, evs := Push(output, evs, encode, C.TextDelta(t));
      }
      if action.BufferOverflow? {
        fcEnabled := false;
        synthesizeTermination := false;
        pendingStopReason := None;
      }
    }

    /** `process_decoded_events_into`: the output is cleared, then every
        decoded event is handled in order. */
    method ProcessDecodedEvents(events: seq<C.StreamEvent>, encode: Encoder) returns (output: seq<bytes>)
      requires Valid()
      modifies this, detector
      ensures Valid() && Cfg() == old(Cfg()) && toolCallIndex == old(toolCallIndex)
      ensures var r := EventsStep(old(Cfg()), old(State()), events);
        State() == r.0 && output == Encoded(encode, r.1)
    {
      output := [];
      var i := 0;
      while i < |events|
        invariant 0 <= i <= |events|
        invariant Valid() && Cfg() == old(Cfg()) && toolCallIndex == old(toolCallIndex)
        invariant var r := EventsStep(old(Cfg()), old(State()), events[..i]);
          State() == r.0 && output == Encoded(encode, r.1)
      {
        ghost var before := EventsStep(old(Cfg()), old(State()), events[..i]);
        ghost var step := EventStep(old(Cfg()), before.0, events[i]);
        output := ProcessEvent(events[i], encode, output);
        assert events[..i + 1][..i] == events[..i];
        EncodedAppend(encode, before.1, step.1);
        i := i + 1;
      }
      assert events[..|events|] == events;
    }

    /** `try_process_raw_frame_into`: a frame the upstream decoder cannot
        read leaves the output and the processor as they were and reports
        false; otherwise its events are processed. */
    method TryProcessRawFrame(raw: bytes, decode: Transcoder.FrameDecoder, encode: Encoder, output0: seq<bytes>)
      returns (ok: bool, output: seq<bytes>)
      requires Valid()
      modifies this, detector
      ensures Valid() && Cfg() == old(Cfg()) && toolCallIndex == old(toolCallIndex)
      ensures ok <==> decode(raw).Some?
      ensures !ok ==> output == output0 && State() == old(State())
      ensures ok ==> var r := EventsStep(old(Cfg()), old(State()), decode(raw).value);
        State() == r.0 && output == Encoded(encode, r.1)
    {
      var events := decode(raw);
      if events.None? {
        return false, output0;
      }
      output := ProcessDecodedEvents(events.value, encode);
      ok := true;
    }

    /** One iteration of the loop of `emit_parsed_tool_calls_into`: the
        call's three events under the current index, which then moves on. */
    method EmitCall(c: P.ParsedToolCall, serialize: Serializer, encode: Encoder,
                    counter: Util.CallIdCounter, output0: seq<bytes>, ghost evs0: seq<C.StreamEvent>)
      returns (output: seq<bytes>, ghost evs: seq<C.StreamEvent>)
      requires output0 == Encoded(encode, evs0)
      modifies this, counter
      ensures fcEnabled == old(fcEnabled) && synthesizeTermination == old(synthesizeTermination)
      ensures pendingStopReason == old(pendingStopReason)
      ensures evs == evs0 + CallTriple(c, old(toolCallIndex), CallId(c, old(counter.next)), serialize)
      ensures output == Encoded(encode, evs)
      ensures toolCallIndex == old(toolCallIndex) + 1 && counter.next == CounterAfter(c, old(counter.next))
    {
      var index := toolCallIndex;
      var id;
      if c.id.Some? {
        id := c.id.value;
      } else {
        id := counter.NextCallId();
      }
      output, evs := Push(output0, evs0, encode, C.ToolCallStart(index, id, c.name));
      output, evs := Push(output, evs, encode, C.ToolCallArgsDelta(index, ArgumentsDelta(c.arguments, c.argumentsJson, serialize)));
      output, evs := Push(output, evs, encode, C.ToolCallEnd(index, None, None));
      toolCallIndex := toolCallIndex + 1;
    }

    /** `emit_parsed_tool_calls_into`: the events of every call, then one
        `MessageEnd` with `ToolCalls`. */
    method EmitParsedToolCalls(calls: seq<P.ParsedToolCall>, serialize: Serializer, encode: Encoder,
                               counter: Util.CallIdCounter)
      returns (output: seq<bytes>, ghost evs: seq<C.StreamEvent>)
      modifies this, counter
      ensures fcEnabled == old(fcEnabled) && synthesizeTermination == old(synthesizeTermination)
      ensures pendingStopReason == old(pendingStopReason)
      ensures var t := CallEvents(calls, old(toolCallIndex), old(counter.next), serialize);
        && evs == t.events + [C.MessageEnd(C.ToolCalls)]
        && toolCallIndex == t.index && counter.next == t.next
      ensures output == Encoded(encode, evs)
    {
      output, evs := [], [];
      var i := 0;
      while i < |calls|
        invariant 0 <= i <= |calls|
        invariant fcEnabled == old(fcEnabled) && synthesizeTermination == old(synthesizeTermination)
        invariant pendingStopReason == old(pendingStopReason)
        invariant Emission(evs, toolCallIndex, counter.next) == CallEvents(calls[..i], old(toolCallIndex), old(counter.next), serialize)
        invariant output == Encoded(encode, evs)
      {
        output, evs := EmitCall(calls[i], serialize, encode, counter, output, evs);
        assert calls[..i + 1][..i] == calls[..i];
        i := i + 1;
      }
      assert calls[..|calls|] == calls;
      output, evs := Push(output, evs, encode, C.MessageEnd(C.ToolCalls));
    }

    /** The synthesised ending of `finalize_into`, given the outcome of
        parsing the leftover text. */
    method CloseMessage(parsed: Result<seq<P.ParsedToolCall>, P.ParseError>, detecting: bool, text: bytes,
                        stop: C.StreamEvent, serialize: Serializer, encode: Encoder, counter: Util.CallIdCounter)
      returns (output: seq<bytes>, ghost evs: seq<C.StreamEvent>)
      modifies this, counter
      ensures fcEnabled == old(fcEnabled) && synthesizeTermination == old(synthesizeTermination)
      ensures pendingStopReason == old(pendingStopReason)
      ensures Emission(evs, toolCallIndex, counter.next)
        == Closing(parsed, serialize, detecting, text, stop, old(toolCallIndex), old(counter.next))
      ensures output == Encoded(encode, evs)
    {
      if !detecting && parsed.Ok? && parsed.value != [] {
        output, evs := CloseWithCalls(parsed.value, serialize, encode, counter);
      } else {
        output, evs := CloseWithText(text, stop, encode);
      }
    }

    /** The parsed calls, `MessageEnd` with `ToolCalls`, then `Done`. */
    method CloseWithCalls(calls: seq<P.ParsedToolCall>, serialize: Serializer, encode: Encoder, counter: Util.CallIdCounter)
      returns (output: seq<bytes>, ghost evs: seq<C.StreamEvent>)
      modifies this, counter
      ensures fcEnabled == old(fcEnabled) && synthesizeTermination == old(synthesizeTermination)
      ensures pendingStopReason == old(pendingStopReason)
      ensures var t := CallEvents(calls, old(toolCallIndex), old(counter.next), serialize);
        && evs == t.events + [C.MessageEnd(C.ToolCalls), C.Done]
        && toolCallIndex == t.index && counter.next == t.next
      ensures output == Encoded(encode, evs)
    {
      ghost var t := CallEvents(calls, old(toolCallIndex), old(counter.next), serialize);
      ghost var body := t.events + [C.MessageEnd(C.ToolCalls)];
      output, evs := EmitParsedToolCalls(calls, serialize, encode, counter);
      output, evs := Push(output, evs, encode, C.Done);
      assert body + [C.Done] == t.events + [C.MessageEnd(C.ToolCalls), C.Done];
    }

    /** The leftover text, the held stop, then `Done`. */
    static method CloseWithText(text: bytes, stop: C.StreamEvent, encode: Encoder)
      returns (output: seq<bytes>, ghost evs: seq<C.StreamEvent>)
      ensures evs == TextOut(text) + [stop, C.Done]
      ensures output == Encoded(encode, evs)
    {
      evs := [];
      output := [];
      if text != [] {
        output, evs := Push(output, evs, encode, C.TextDelta(text));
      }
      assert evs == TextOut(text);
      output, evs := Push(output, evs, encode, stop);
      output, evs := Push(output, evs, encode, C.Done);
      assert evs == TextOut(text) + [stop] + [C.Done];
    }

    /** `finalize_into`. */
    method FinalizeInto(tiers: P.Tiers, serialize: Serializer, encode: Encoder, counter: Util.CallIdCounter)
      returns (output: seq<bytes>)
      requires Valid()
      modifies this, detector, counter
      ensures Valid() && Cfg() == old(Cfg())
      ensures var parsed := P.ParseSpec(old(detector.buffer), old(Cfg()).trigger, tiers);
        var f := FinalizeSpec(parsed, serialize, old(State()), old(toolCallIndex), old(counter.next));
        && State() == f.state && toolCallIndex == f.index && counter.next == f.next
        && output == Encoded(encode, f.events)
    {
      var stop := C.MessageEnd(if pendingStopReason.Some? then pendingStopReason.value else C.EndOfTurn);
      var detecting := detector.state == D.Detecting;
      var remaining := detector.Finalize();
      var text := if remaining.Some? then remaining.value else [];
      assert text == old(detector.buffer);
      if !synthesizeTermination {
        ghost var evs: seq<C.StreamEvent> := [];
        output := [];
        if text != [] {
          output, evs := Push(output, evs, encode, C.TextDelta(text));
        }
        return;
      }
      var parsed: Result<seq<P.ParsedToolCall>, P.ParseError> := Err(P.EmptyInput);
      if !detecting {
        parsed := P.ParseFunctionCalls(text, detector.trigger, tiers);
      }
      ghost var evs;
      output, evs := CloseMessage(parsed, detecting, text, stop, serialize, encode, counter);
    }
  }
}
