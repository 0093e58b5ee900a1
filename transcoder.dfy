/** `src/stream/transcoder.rs`, the decisions around the per-dialect
    encoders and decoders: when upstream bytes pass through untouched,
    which canonical events a client dialect drops, the one retry of a frame
    without its terminator, the Responses event names, and the `u64`
    readers that pull counters and indices out of a JSON payload without
    parsing it. The encoders and decoders themselves are parameters. */
module Transcoder {
  import opened Wrappers
  import opened Bytes
  import opened Ints
  import JsonScan
  import Util
  import Canonical
  import StreamFrame

  type IngressApi = Canonical.IngressApi
  type ProviderKind = Canonical.ProviderKind
  type StreamEvent = Canonical.StreamEvent

  // ---------------------------------------------------------------------
  // Passthrough and usage

  /** The client dialect whose SSE stream an upstream provider already
      writes: the OpenAI-compatible Gemini endpoint streams OpenAI Chat
      chunks. */
  function StreamDialect(p: ProviderKind): IngressApi {
    match p
    case OpenAi => Canonical.OpenAiChat
    case GeminiOpenAi => Canonical.OpenAiChat
    case OpenAiResponsesProvider => Canonical.OpenAiResponses
    case AnthropicProvider => Canonical.Anthropic
    case GeminiProvider => Canonical.Gemini
  }

  /** `is_passthrough`: raw upstream bytes are forwarded exactly when the
      upstream already streams in the client's dialect. */
  function IsPassthrough(p: ProviderKind, c: IngressApi): (r: bool)
    ensures r <==> StreamDialect(p) == c
  {
    match (p, c)
    case (OpenAi, OpenAiChat) => true
    case (GeminiOpenAi, OpenAiChat) => true
    case (AnthropicProvider, Anthropic) => true
    case (GeminiProvider, Gemini) => true
    case (OpenAiResponsesProvider, OpenAiResponses) => true
    case _ => false
  }

  /** Every client dialect has an upstream it can be streamed from without
      transcoding, and an upstream is passthrough for one dialect only. */
  lemma PassthroughPerDialect(c: IngressApi, p: ProviderKind, c2: IngressApi)
    ensures exists q :: IsPassthrough(q, c)
    ensures IsPassthrough(p, c) && IsPassthrough(p, c2) ==> c == c2
  {
    match c
    case OpenAiChat => assert IsPassthrough(Canonical.OpenAi, c);
    case OpenAiResponses => assert IsPassthrough(Canonical.OpenAiResponsesProvider, c);
    case Anthropic => assert IsPassthrough(Canonical.AnthropicProvider, c);
    case Gemini => assert IsPassthrough(Canonical.GeminiProvider, c);
  }

  /** `emits_usage_event`: whether the transcoder forwards usage events to
      the client. */
  predicate EmitsUsageEvent(c: IngressApi) {
    c == Canonical.OpenAiChat || c == Canonical.Gemini
  }

  /** What `encode_client_event` does with one canonical event before any
      encoder runs: skip it, hand out the precomputed terminal frame, or
      call the dialect's encoder. */
  datatype ClientRoute = Skipped | PrecomputedDone | Encoder

  function ClientEventRoute(c: IngressApi, ev: StreamEvent): (r: ClientRoute)
    ensures r == PrecomputedDone <==> ev.Done? && (c == Canonical.Anthropic || c == Canonical.OpenAiResponses)
    ensures r == Skipped ==> c == Canonical.Anthropic || c == Canonical.OpenAiResponses
    ensures c == Canonical.Anthropic && r == Skipped ==> ev.UsageEvent?
    ensures c == Canonical.OpenAiResponses && r == Skipped ==> ev.UsageEvent? || ev.MessageEnd? || ev.ReasoningDelta?
  {
    match c
    case OpenAiChat => Encoder
    case Gemini => Encoder
    case Anthropic =>
      if ev.UsageEvent? then Skipped
      else if ev.Done? then PrecomputedDone
      else Encoder
    case OpenAiResponses =>
      if ev.UsageEvent? || ev.MessageEnd? || ev.ReasoningDelta? then Skipped
      else if ev.Done? then PrecomputedDone
      else Encoder
  }

  /** A usage event reaches a client encoder exactly for the dialects the
      transcoder emits usage events for. */
  lemma UsageReachesEmittingClients(c: IngressApi, u: Canonical.Usage)
    ensures ClientEventRoute(c, Canonical.UsageEvent(u)) != Skipped <==> EmitsUsageEvent(c)
  {
  }

  /** The Responses client never sees a stop reason or reasoning text as
      its own event; the Anthropic client sees both. */
  lemma ResponsesDropsStopAndReasoning(s: Canonical.StopReason, t: bytes)
    ensures ClientEventRoute(Canonical.OpenAiResponses, Canonical.MessageEnd(s)) == Skipped
    ensures ClientEventRoute(Canonical.OpenAiResponses, Canonical.ReasoningDelta(t)) == Skipped
    ensures ClientEventRoute(Canonical.Anthropic, Canonical.MessageEnd(s)) == Encoder
    ensures ClientEventRoute(Canonical.Anthropic, Canonical.ReasoningDelta(t)) == Encoder
  {
  }

  // ---------------------------------------------------------------------
  // Raw frames

  /** `raw_frame_terminated`: the frame ends in a blank line. */
  predicate Terminated(raw: bytes) {
    EndsWith(raw, StreamFrame.LF_LF) || EndsWith(raw, StreamFrame.CRLF_CRLF)
  }

  /** An upstream decoder: the canonical events of one raw frame, or None
      when the frame is not one it can decode. */
  type FrameDecoder = bytes -> Option<seq<StreamEvent>>

  /** The decode step of `transcode_raw_frame_into_with_decode_buffer`: a
      frame that fails to decode and lacks a terminator is tried once more
      with `\n\n` appended. */
  function DecodeRawFrame(raw: bytes, decode: FrameDecoder): (r: Option<seq<StreamEvent>>)
    ensures decode(raw).Some? ==> r == decode(raw)
    ensures Terminated(raw) ==> r == decode(raw)
    ensures r.Some? && r != decode(raw) ==> !Terminated(raw) && r == decode(raw + StreamFrame.LF_LF)
  {
    var first := decode(raw);
    if first.Some? then first
    else if !Terminated(raw) then decode(raw + StreamFrame.LF_LF)
    else None
  }

  /** The retried frame is terminated, so the retry happens at most once,
      and its terminator is the one the frame parser's payload end cuts. */
  lemma RetriedFrameTerminated(raw: bytes)
    ensures Terminated(raw + StreamFrame.LF_LF)
    ensures StreamFrame.FramePayloadEnd(raw + StreamFrame.LF_LF).Some?
  {
    var t := raw + StreamFrame.LF_LF;
    assert t[|t| - 2..] == StreamFrame.LF_LF;
  }

  /** Terminated frames are exactly those with a payload end. */
  lemma TerminatedHasPayloadEnd(raw: bytes)
    ensures Terminated(raw) <==> StreamFrame.FramePayloadEnd(raw).Some?
  {
  }

  // ---------------------------------------------------------------------
  // Responses event names

  /** `ResponsesEventType`: the Responses stream events the decoder reacts
      to, and everything else. */
  datatype ResponsesEventType =
    | Created | InProgress | ContentPartAdded | ContentPartDone
    | OutputTextDone | FunctionCallArgumentsDone | OutputTextDelta
    | FunctionCallArgumentsDelta | OutputItemAdded | OutputItemDone
    | Completed | Error | Unknown

  /** The `event:` name of each known Responses event. */
  function EventTypeName(t: ResponsesEventType): (name: bytes)
    requires !t.Unknown?
    ensures |name| > 0
  {
    match t
    case Created => "response.created"
    case InProgress => "response.in_progress"
    case ContentPartAdded => "response.content_part.added"
    case ContentPartDone => "response.content_part.done"
    case OutputTextDone => "response.output_text.done"
    case FunctionCallArgumentsDone => "response.function_call_arguments.done"
    case OutputTextDelta => "response.output_text.delta"
    case FunctionCallArgumentsDelta => "response.function_call_arguments.delta"
    case OutputItemAdded => "response.output_item.added"
    case OutputItemDone => "response.output_item.done"
    case Completed => "response.completed"
    case Error => "error"
  }

  /** `parse_responses_event_type_from_str`. */
  function ParseResponsesEventType(name: bytes): (t: ResponsesEventType)
    ensures !t.Unknown? ==> EventTypeName(t) == name
  {
    if name == "response.created" then Created
    else if name == "response.in_progress" then InProgress
    else if name == "response.content_part.added" then ContentPartAdded
    else if name == "response.content_part.done" then ContentPartDone
    else if name == "response.output_text.done" then OutputTextDone
    else if name == "response.function_call_arguments.done" then FunctionCallArgumentsDone
    else if name == "response.output_text.delta" then OutputTextDelta
    else if name == "response.function_call_arguments.delta" then FunctionCallArgumentsDelta
    else if name == "response.output_item.added" then OutputItemAdded
    else if name == "response.output_item.done" then OutputItemDone
    else if name == "response.completed" then Completed
    else if name == "error" then Error
    else Unknown
  }

  /** Every known event type is read back from its name, so distinct
      known types have distinct names. */
  lemma {:induction false} EventTypeNameParses(t: ResponsesEventType)
    requires !t.Unknown?
    ensures ParseResponsesEventType(EventTypeName(t)) == t
  {
    match t
    case Created =>
    case InProgress =>
    case ContentPartAdded =>
    case ContentPartDone =>
    case OutputTextDone =>
    case FunctionCallArgumentsDone =>
    case OutputTextDelta =>
    case FunctionCallArgumentsDelta =>
    case OutputItemAdded =>
    case OutputItemDone =>
    case Completed =>
    case Error =>
  }

  // ---------------------------------------------------------------------
  // Unsigned counters after a key

  /** `u64::MAX / 10` and `u64::MAX % 10`, the overflow guard of the digit
      loops. */
  const U64_MAX_DIV10: nat := (U64_LIMIT - 1) / 10
  const U64_MAX_MOD10: nat := (U64_LIMIT - 1) % 10

  /** End of the run of ASCII digits starting at `i` that stops at `end`. */
  function DigitRunEnd(s: bytes, i: nat, end: nat): (j: nat)
    requires end <= |s|
    ensures i <= j
    ensures i >= end ==> j == i
    ensures i <= end ==> j <= end
    decreases end - i
  {
    if i < end && IsDigit(s[i]) then DigitRunEnd(s, i + 1, end) else i
  }

  /** The run is all digits and stops at `end` or at a non-digit. */
  lemma {:induction false} DigitRunEndSpec(s: bytes, i: nat, end: nat)
    requires end <= |s|
    ensures var j := DigitRunEnd(s, i, end);
      (j < end ==> !IsDigit(s[j])) && forall k | i <= k < j :: IsDigit(s[k])
    decreases end - i
  {
    if i < end && IsDigit(s[i]) {
      DigitRunEndSpec(s, i + 1, end);
    }
  }

  /** The `u64` the digits at `i` spell, reading no further than `end`:
      None when there is no digit there or the number does not fit. */
  function U64Digits(s: bytes, i: nat, end: nat): (r: Option<u64>)
    requires end <= |s|
    ensures r.Some? ==> i < end && IsDigit(s[i])
  {
    var j := DigitRunEnd(s, i, end);
    DigitRunEndSpec(s, i, end);
    if j == i then None
    else if Util.DecimalValue(s[i..j]) < U64_LIMIT then Some(Util.DecimalValue(s[i..j]))
    else None
  }

  /** Where the value after the first `key` inside `s[start..end]`
      starts: past the key and any JSON whitespace after it. */
  function ValueStart(s: bytes, key: bytes, start: nat, end: nat): (r: Option<nat>)
    requires start <= end <= |s|
    ensures r.Some? ==> Contains(s[start..end], key) && start + |key| <= r.value <= |s|
  {
    match Find(s[start..end], key)
    case None => None
    case Some(p) => Some(JsonScan.WsEnd(s, start + p + |key|))
  }

  /** The value `parse_u64_after_key_in` reads: the maximal digit run at
      `ValueStart`, read no further than `end`. `parse_u64_after_key` is the
      window of the whole text. */
  function U64AfterKeyIn(s: bytes, key: bytes, start: nat, end: nat): (r: Option<u64>)
    requires start <= end <= |s|
    ensures r.Some? ==> Contains(s[start..end], key)
  {
    match ValueStart(s, key, start, end)
    case None => None
    case Some(i) => U64Digits(s, i, end)
  }

  /** `ValueStart` once the key is located. */
  lemma {:induction false} ValueStartAt(t: bytes, key: bytes, p: nat)
    requires Find(t[0..|t|], key) == Some(p)
    ensures ValueStart(t, key, 0, |t|) == Some(JsonScan.WsEnd(t, p + |key|))
  {
  }

  /** The same, with the end of the whitespace known. */
  lemma {:induction false} ValueStartIs(t: bytes, key: bytes, p: nat, b: nat)
    requires Find(t[0..|t|], key) == Some(p)
    requires JsonScan.WsEnd(t, p + |key|) == b
    ensures ValueStart(t, key, 0, |t|) == Some(b)
  {
    ValueStartAt(t, key, p);
  }

  /** The digit loop shared by both readers, with its overflow guard. */
  method ReadU64Digits(s: bytes, i0: nat, end: nat) returns (r: Option<u64>)
    requires i0 <= |s| && end <= |s|
    ensures r == U64Digits(s, i0, end)
  {
    var i := i0;
    var value: nat := 0;
    var sawDigit := false;
    while i < end
      invariant i0 <= i && (i0 <= end ==> i <= end) && (i0 > end ==> i == i0)
      invariant DigitRunEnd(s, i, end) == DigitRunEnd(s, i0, end)
      invariant forall k | i0 <= k < i :: IsDigit(s[k])
      invariant value == Util.DecimalValue(s[i0..i]) && value < U64_LIMIT
      invariant sawDigit <==> i > i0
      decreases end - i
    {
      if !IsDigit(s[i]) {
        break;
      }
      sawDigit := true;
      var digit := s[i] as int - '0' as int;
      assert s[i0..i + 1][..i - i0] == s[i0..i];
      assert Util.DecimalValue(s[i0..i + 1]) == value * 10 + digit;
      OverflowGuard(value, digit);
      if value > U64_MAX_DIV10 || (value == U64_MAX_DIV10 && digit > U64_MAX_MOD10) {
        assert DigitRunEnd(s, i, end) == DigitRunEnd(s, i + 1, end);
        TooLongRun(s, i0, end, i + 1);
        return None;
      }
      value := value * 10 + digit;
      i := i + 1;
    }
    if sawDigit {
      r := Some(value);
    } else {
      r := None;
    }
  }

  /** The guard of the digit loops: one more digit overflows a `u64`
      exactly when the guard says so. */
  lemma OverflowGuard(value: nat, digit: int)
    requires 0 <= digit <= 9 && value < U64_LIMIT
    ensures value > U64_MAX_DIV10 || (value == U64_MAX_DIV10 && digit > U64_MAX_MOD10)
      <==> value * 10 + digit >= U64_LIMIT
  {
  }

  /** Digits from `i0` to `e` whose value does not fit make the whole run
      unreadable. */
  lemma TooLongRun(s: bytes, i0: nat, end: nat, e: nat)
    requires i0 < e <= end <= |s| && e <= DigitRunEnd(s, i0, end)
    requires forall k | 0 <= k < e - i0 :: IsDigit(s[i0..e][k])
    requires Util.DecimalValue(s[i0..e]) >= U64_LIMIT
    ensures U64Digits(s, i0, end) == None
  {
    var j := DigitRunEnd(s, i0, end);
    DigitRunEndSpec(s, i0, end);
    var run := s[i0..j];
    forall k | 0 <= k < |run| ensures IsDigit(run[k]) {
      assert run[k] == s[i0 + k];
    }
    assert run[..e - i0] == s[i0..e];
    DecimalPrefixLe(run, e - i0);
  }

  /** A prefix of a digit string is worth no more than the whole. */
  lemma {:induction false} DecimalPrefixLe(d: bytes, n: nat)
    requires forall k | 0 <= k < |d| :: IsDigit(d[k])
    requires n <= |d|
    ensures Util.DecimalValue(d[..n]) <= Util.DecimalValue(d)
    decreases |d|
  {
    if n < |d| {
      var d' := d[..|d| - 1];
      assert d'[..n] == d[..n];
      DecimalPrefixLe(d', n);
    } else {
      assert d[..n] == d;
    }
  }

  /** `parse_u64_after_key_in`: reads the counter after the first `key`
      between `start` and `end`. */
  method ParseU64AfterKeyIn(s: bytes, key: bytes, start: nat, end: nat) returns (r: Option<u64>)
    requires start <= end <= |s|
    ensures r == U64AfterKeyIn(s, key, start, end)
  {
    var found := Find(s[start..end], key);
    if found.None? {
      return None;
    }
    var i := JsonScan.SkipWs(s, start + found.value + |key|);
    r := ReadU64Digits(s, i, end);
  }

  /** `parse_u64_after_key`: reads the counter after the first `key` in
      the whole text. */
  method ParseU64AfterKey(s: bytes, key: bytes) returns (r: Option<u64>)
    ensures r == U64AfterKeyIn(s, key, 0, |s|)
  {
    var found := Find(s, key);
    assert s[0..|s|] == s;
    if found.None? {
      return None;
    }
    var i := JsonScan.SkipWs(s, found.value + |key|);
    r := ReadU64Digits(s, i, |s|);
  }

  /** Skipping whitespace over a known run of it. */
  lemma {:induction false} WsEndOver(s: bytes, i: nat, w: bytes)
    requires i + |w| <= |s| && s[i..i + |w|] == w
    requires forall k | 0 <= k < |w| :: JsonScan.IsJsonWs(w[k])
    requires i + |w| == |s| || !JsonScan.IsJsonWs(s[i + |w|])
    ensures JsonScan.WsEnd(s, i) == i + |w|
    decreases |w|
  {
    if |w| > 0 {
      assert s[i] == s[i..i + |w|][0] == w[0];
      assert s[i + 1..i + 1 + |w[1..]|] == w[1..];
      WsEndOver(s, i + 1, w[1..]);
    }
  }

  /** Reading digits over a known run of them. */
  lemma {:induction false} DigitRunOver(s: bytes, i: nat, d: bytes)
    requires i + |d| <= |s| && s[i..i + |d|] == d
    requires forall k | 0 <= k < |d| :: IsDigit(d[k])
    requires i + |d| == |s| || !IsDigit(s[i + |d|])
    ensures DigitRunEnd(s, i, |s|) == i + |d|
    decreases |d|
  {
    if |d| > 0 {
      assert s[i] == s[i..i + |d|][0] == d[0];
      assert s[i + 1..i + 1 + |d[1..]|] == d[1..];
      DigitRunOver(s, i + 1, d[1..]);
    }
  }

  /** The first occurrence in a text is still the first once more text is
      appended. */
  lemma {:induction false} FindExtend(t: bytes, u: bytes, p: bytes, i: nat)
    requires Find(t, p) == Some(i)
    ensures Find(t + u, p) == Some(i)
  {
    var tu := t + u;
    assert tu[i..i + |p|] == t[i..i + |p|];
    forall k: nat | k < i
      ensures !MatchAt(tu, p, k)
    {
      assert !MatchAt(t, p, k);
      assert tu[k..k + |p|] == t[k..k + |p|];
    }
    assert MatchAt(tu, p, i);
  }

  /** Round trip with the decimal writer: after the first `key`, optional
      whitespace and the decimal text of `n`, the reader returns `n` when
      it fits in a `u64` and None when it does not. */
  lemma {:induction false} ReadsWrittenNumber(pre: bytes, key: bytes, ws: bytes, n: nat, rest: bytes)
    requires Find(pre + key, key) == Some(|pre|)
    requires forall k | 0 <= k < |ws| :: JsonScan.IsJsonWs(ws[k])
    requires rest == [] || !IsDigit(rest[0])
    ensures U64AfterKeyIn(pre + key + ws + Util.Decimal(n) + rest, key, 0, |pre + key + ws + Util.Decimal(n) + rest|)
         == (if n < U64_LIMIT then Some(n) else None)
  {
    var d := Util.Decimal(n);
    Util.DecimalRoundTrip(n);
    var t := pre + key + ws + d + rest;
    KeyFound(t, pre, key, ws + d + rest);
    ReadNumberAt(t, key, |pre|, ws, d, rest);
  }

  /** The key found at `p`, then whitespace, digits and a non-digit. */
  lemma {:induction false} ReadNumberAt(t: bytes, key: bytes, p: nat, ws: bytes, d: bytes, rest: bytes)
    requires Find(t[0..|t|], key) == Some(p)
    requires p + |key| <= |t| && t[p + |key|..] == ws + d + rest
    requires forall k | 0 <= k < |ws| :: JsonScan.IsJsonWs(ws[k])
    requires |d| > 0 && forall k | 0 <= k < |d| :: IsDigit(d[k])
    requires rest == [] || !IsDigit(rest[0])
    ensures U64AfterKeyIn(t, key, 0, |t|) == (if Util.DecimalValue(d) < U64_LIMIT then Some(Util.DecimalValue(d)) else None)
  {
    NumberSlices(t, p + |key|, ws, d, rest);
    LocatedNumber(t, key, p, p + |key|, ws, d);
  }

  /** The key at `p`, whitespace at `a` and digits after it, located by
      their slices. */
  lemma {:induction false} LocatedNumber(t: bytes, key: bytes, p: nat, a: nat, ws: bytes, d: bytes)
    requires Find(t[0..|t|], key) == Some(p) && a == p + |key|
    requires |d| > 0 && a + |ws| + |d| <= |t|
    requires t[a..a + |ws|] == ws && t[a + |ws|..a + |ws| + |d|] == d && t[a + |ws|] == d[0]
    requires a + |ws| + |d| == |t| || !IsDigit(t[a + |ws| + |d|])
    requires forall k | 0 <= k < |ws| :: JsonScan.IsJsonWs(ws[k])
    requires forall k | 0 <= k < |d| :: IsDigit(d[k])
    ensures U64AfterKeyIn(t, key, 0, |t|) == (if Util.DecimalValue(d) < U64_LIMIT then Some(Util.DecimalValue(d)) else None)
  {
    NumberRuns(t, a, ws, d);
    ValueStartIs(t, key, p, a + |ws|);
    ReadAt(t, key, a + |ws|, d);
  }

  /** The key is first found where `pre` ends. */
  lemma {:induction false} KeyFound(t: bytes, pre: bytes, key: bytes, tail: bytes)
    requires t == pre + key + tail
    requires Find(pre + key, key) == Some(|pre|)
    ensures Find(t[0..|t|], key) == Some(|pre|)
    ensures t[|pre| + |key|..] == tail
  {
    assert t[0..|t|] == t == (pre + key) + tail;
    FindExtend(pre + key, tail, key, |pre|);
  }

  /** Where the pieces of `t[a..]` sit in `t`. */
  lemma {:induction false} NumberSlices(t: bytes, a: nat, ws: bytes, d: bytes, rest: bytes)
    requires a <= |t| && t[a..] == ws + d + rest
    requires |d| > 0 && (rest == [] || !IsDigit(rest[0]))
    ensures a + |ws| + |d| <= |t|
    ensures t[a..a + |ws|] == ws && t[a + |ws|..a + |ws| + |d|] == d && t[a + |ws|] == d[0]
    ensures a + |ws| + |d| == |t| || !IsDigit(t[a + |ws| + |d|])
  {
    var b := a + |ws|;
    var u := t[a..];
    assert t[a..b] == u[..|ws|] == ws;
    assert t[b..b + |d|] == u[|ws|..|ws| + |d|] == d;
    assert t[b] == u[|ws|] == d[0];
    assert b + |d| < |t| ==> t[b + |d|] == u[|ws| + |d|] == rest[0];
  }

  /** Whitespace then digits, both located by their slices. */
  lemma {:induction false} NumberRuns(t: bytes, a: nat, ws: bytes, d: bytes)
    requires |d| > 0 && a + |ws| + |d| <= |t|
    requires t[a..a + |ws|] == ws && t[a + |ws|..a + |ws| + |d|] == d && t[a + |ws|] == d[0]
    requires a + |ws| + |d| == |t| || !IsDigit(t[a + |ws| + |d|])
    requires forall k | 0 <= k < |ws| :: JsonScan.IsJsonWs(ws[k])
    requires forall k | 0 <= k < |d| :: IsDigit(d[k])
    ensures JsonScan.WsEnd(t, a) == a + |ws|
    ensures DigitRunEnd(t, a + |ws|, |t|) == a + |ws| + |d|
  {
    DigitRunOver(t, a + |ws|, d);
    WsEndOver(t, a, ws);
  }

  /** With the value's start and its digit run located, the reader
      returns the run's value when it fits. */
  lemma {:induction false} ReadAt(t: bytes, key: bytes, b: nat, d: bytes)
    requires ValueStart(t, key, 0, |t|) == Some(b)
    requires |d| > 0 && forall k | 0 <= k < |d| :: IsDigit(d[k])
    requires b + |d| <= |t| && DigitRunEnd(t, b, |t|) == b + |d| && t[b..b + |d|] == d
    ensures U64AfterKeyIn(t, key, 0, |t|) == (if Util.DecimalValue(d) < U64_LIMIT then Some(Util.DecimalValue(d)) else None)
  {
    assert U64AfterKeyIn(t, key, 0, |t|) == U64Digits(t, b, |t|);
    DigitsValueAt(t, b, d);
  }

  /** The digits `d` located at `b` as the whole run: their value. */
  lemma {:induction false} DigitsValueAt(t: bytes, b: nat, d: bytes)
    requires |d| > 0 && forall k | 0 <= k < |d| :: IsDigit(d[k])
    requires b + |d| <= |t| && DigitRunEnd(t, b, |t|) == b + |d| && t[b..b + |d|] == d
    ensures U64Digits(t, b, |t|) == (if Util.DecimalValue(d) < U64_LIMIT then Some(Util.DecimalValue(d)) else None)
  {
    var j := DigitRunEnd(t, b, |t|);
    assert t[b..j] == d;
  }

  /** No digit after the key and its whitespace: nothing is read. */
  lemma {:induction false} NoDigitNothingRead(pre: bytes, key: bytes, ws: bytes, rest: bytes)
    requires Find(pre + key, key) == Some(|pre|)
    requires forall k | 0 <= k < |ws| :: JsonScan.IsJsonWs(ws[k])
    requires rest == [] || (!IsDigit(rest[0]) && !JsonScan.IsJsonWs(rest[0]))
    ensures U64AfterKeyIn(pre + key + ws + rest, key, 0, |pre + key + ws + rest|) == None
  {
    var t := pre + key + ws + rest;
    KeyFound(t, pre, key, ws + rest);
    NoNumberAt(t, key, |pre|, ws, rest);
  }

  /** The key found at `p`, then whitespace and a byte that is neither
      whitespace nor a digit. */
  lemma {:induction false} NoNumberAt(t: bytes, key: bytes, p: nat, ws: bytes, rest: bytes)
    requires Find(t[0..|t|], key) == Some(p)
    requires p + |key| <= |t| && t[p + |key|..] == ws + rest
    requires forall k | 0 <= k < |ws| :: JsonScan.IsJsonWs(ws[k])
    requires rest == [] || (!IsDigit(rest[0]) && !JsonScan.IsJsonWs(rest[0]))
    ensures U64AfterKeyIn(t, key, 0, |t|) == None
  {
    var a := p + |key|;
    WsSlices(t, a, ws, rest);
    WsEndOver(t, a, ws);
    ValueStartIs(t, key, p, a + |ws|);
    NothingAt(t, key, a + |ws|);
  }

  /** Where the whitespace and what follows it sit in `t`. */
  lemma {:induction false} WsSlices(t: bytes, a: nat, ws: bytes, rest: bytes)
    requires a <= |t| && t[a..] == ws + rest
    ensures a + |ws| <= |t| && t[a..a + |ws|] == ws
    ensures a + |ws| == |t| || t[a + |ws|] == rest[0]
  {
    var u := t[a..];
    assert t[a..a + |ws|] == u[..|ws|] == ws;
    assert a + |ws| < |t| ==> t[a + |ws|] == u[|ws|] == rest[0];
  }

  /** The key found and no digit after its whitespace: nothing is read. */
  lemma {:induction false} NothingAt(t: bytes, key: bytes, b: nat)
    requires ValueStart(t, key, 0, |t|) == Some(b)
    requires b >= |t| || !IsDigit(t[b])
    ensures U64AfterKeyIn(t, key, 0, |t|) == None
  {
    assert U64AfterKeyIn(t, key, 0, |t|) == U64Digits(t, b, |t|);
  }

  /** Whitespace skipping agrees on two texts that agree before `end`, up
      to `end`. */
  lemma {:induction false} WsEndWindow(s: bytes, s': bytes, i: nat, end: nat)
    requires i <= end <= |s| && end <= |s'| && s[..end] == s'[..end]
    ensures JsonScan.WsEnd(s, i) < end ==> JsonScan.WsEnd(s', i) == JsonScan.WsEnd(s, i)
    ensures JsonScan.WsEnd(s, i) >= end <==> JsonScan.WsEnd(s', i) >= end
    decreases end - i
  {
    if i < end {
      assert s[i] == s[..end][i] == s'[i];
      if JsonScan.IsJsonWs(s[i]) {
        WsEndWindow(s, s', i + 1, end);
      }
    }
  }

  /** Digit runs agree on two texts that agree before `end`. */
  lemma {:induction false} DigitRunWindow(s: bytes, s': bytes, i: nat, end: nat)
    requires i <= end <= |s| && end <= |s'| && s[..end] == s'[..end]
    ensures DigitRunEnd(s, i, end) == DigitRunEnd(s', i, end)
    ensures s[i..DigitRunEnd(s, i, end)] == s'[i..DigitRunEnd(s, i, end)]
    decreases end - i
  {
    var j := DigitRunEnd(s, i, end);
    if i < end {
      assert s[i] == s[..end][i] == s'[i];
      if IsDigit(s[i]) {
        DigitRunWindow(s, s', i + 1, end);
      }
    }
    assert s[i..j] == s[..end][i..j] == s'[..end][i..j] == s'[i..j];
  }

  /** The bounded reader never looks at a byte at or after `end`: its
      result depends only on `s[..end]`. */
  lemma {:induction false} ReadsOnlyWindow(s: bytes, s': bytes, key: bytes, start: nat, end: nat)
    requires start <= end <= |s| && end <= |s'| && s[..end] == s'[..end]
    ensures U64AfterKeyIn(s, key, start, end) == U64AfterKeyIn(s', key, start, end)
  {
    assert s[start..end] == s[..end][start..] == s'[..end][start..] == s'[start..end];
    match Find(s[start..end], key)
    case None =>
    case Some(p) =>
      var i := start + p + |key|;
      WsEndWindow(s, s', i, end);
      var w := JsonScan.WsEnd(s, i);
      if w < end {
        DigitRunWindow(s, s', w, end);
      }
  }
}
