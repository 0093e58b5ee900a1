/** The streaming function-call trigger detector (`src/fc/detector.rs`).

    The detector scans the text deltas of a model's answer for the trigger
    signal that announces a tool-call block. Its three states are
    `Detecting` (text is scanned and passed on), `ToolParsing` (everything
    after the trigger is buffered for the XML parser) and `Completed` (the
    closing `</function_calls>` arrived; later text passes through).
    Triggers inside reasoning blocks (`<think>`, `<thinking>`, `<reasoning>`,
    `<analysis>`) are ignored, and the buffer is bounded.

    Each step is a pure function (`FeedStep`, `FeedOwnedStep`, `FinalizeStep`) on a
    snapshot of the detector's fields; the class `StreamingFcDetector`
    updates its fields in place as the source does and is proved to follow
    those functions. The properties are lemmas about the functions. */
module Detector {
  import opened Wrappers
  import opened Bytes
  import opened Ints

  datatype DetectorState = Detecting | ToolParsing | Completed

  /** What one feed tells the caller to do. */
  datatype DetectorAction =
    | PassThrough(text: bytes)
    | Buffer
    | TriggerFound(textBefore: bytes)
    | BufferOverflow(flushed: bytes)

  const THINK_OPEN: bytes := "<think>"
  const THINK_CLOSE: bytes := "</think>"
  const THINKING_OPEN: bytes := "<thinking>"
  const THINKING_CLOSE: bytes := "</thinking>"
  const REASONING_OPEN: bytes := "<reasoning>"
  const REASONING_CLOSE: bytes := "</reasoning>"
  const ANALYSIS_OPEN: bytes := "<analysis>"
  const ANALYSIS_CLOSE: bytes := "</analysis>"
  const FC_OPEN: bytes := "<function_calls>"
  const FC_CLOSE: bytes := "</function_calls>"

  /** The longest closing reasoning tag. */
  const MAX_REASONING_TAG_LEN: nat :=
    Max(Max(|THINK_CLOSE|, |THINKING_CLOSE|), Max(|REASONING_CLOSE|, |ANALYSIS_CLOSE|))

  const DEFAULT_MAX_BUFFER: nat := 512 * 1024
  const MAX_TRIGGER_PREAMBLE_WITHOUT_FC_OPEN: nat := 4096

  // ---------------------------------------------------------------------
  // Reasoning tags

  /** `reasoning_open_tag_len_at`: the length of the opening reasoning tag
      that starts `b`, if any. */
  function ReasoningOpenTagLen(b: bytes): (r: Option<nat>)
    ensures r.Some? ==> 0 < r.value <= |b| && |b| >= 2 && b[0] == '<' && b[1] != '/'
  {
    if |b| == 0 || b[0] != '<' then None
    else if |b| < 2 then None
    else if b[1] == 't' then
      if StartsWith(b, THINK_OPEN) then Some(|THINK_OPEN|)
      else if StartsWith(b, THINKING_OPEN) then Some(|THINKING_OPEN|)
      else None
    else if b[1] == 'r' then
      if StartsWith(b, REASONING_OPEN) then Some(|REASONING_OPEN|) else None
    else if b[1] == 'a' then
      if StartsWith(b, ANALYSIS_OPEN) then Some(|ANALYSIS_OPEN|) else None
    else None
  }

  /** `reasoning_close_tag_len_at`: the length of the closing reasoning tag
      that starts `b`, if any. */
  function ReasoningCloseTagLen(b: bytes): (r: Option<nat>)
    ensures r.Some? ==> 0 < r.value <= |b| && |b| >= 2 && b[0] == '<' && b[1] == '/'
  {
    if |b| < 2 || b[0] != '<' || b[1] != '/' then None
    else if |b| < 3 then None
    else if b[2] == 't' then
      if StartsWith(b, THINK_CLOSE) then Some(|THINK_CLOSE|)
      else if StartsWith(b, THINKING_CLOSE) then Some(|THINKING_CLOSE|)
      else None
    else if b[2] == 'r' then
      if StartsWith(b, REASONING_CLOSE) then Some(|REASONING_CLOSE|) else None
    else if b[2] == 'a' then
      if StartsWith(b, ANALYSIS_CLOSE) then Some(|ANALYSIS_CLOSE|) else None
    else None
  }

  predicate OpensReasoning(b: bytes) {
    StartsWith(b, THINK_OPEN) || StartsWith(b, THINKING_OPEN) || StartsWith(b, REASONING_OPEN) || StartsWith(b, ANALYSIS_OPEN)
  }

  predicate ClosesReasoning(b: bytes) {
    StartsWith(b, THINK_CLOSE) || StartsWith(b, THINKING_CLOSE) || StartsWith(b, REASONING_CLOSE) || StartsWith(b, ANALYSIS_CLOSE)
  }

  /** An opening tag is recognised exactly when `b` starts with one of the
      four, and its length is that tag's length. */
  lemma OpenTagMeaning(b: bytes)
    ensures ReasoningOpenTagLen(b).Some? <==> OpensReasoning(b)
    ensures ReasoningOpenTagLen(b).Some? ==> StartsWith(b, b[..ReasoningOpenTagLen(b).value]) && OpensReasoning(b[..ReasoningOpenTagLen(b).value])
  {
    if OpensReasoning(b) {
      assert |b| >= 7 && b[0] == '<';
      if StartsWith(b, THINK_OPEN) || StartsWith(b, THINKING_OPEN) {
        assert b[1] == 't';
      } else if StartsWith(b, REASONING_OPEN) {
        assert b[1] == 'r';
      } else {
        assert b[1] == 'a';
      }
    }
    var r := ReasoningOpenTagLen(b);
    if r.Some? {
      var t := b[..r.value];
      assert t == THINK_OPEN || t == THINKING_OPEN || t == REASONING_OPEN || t == ANALYSIS_OPEN;
      assert t[..|t|] == t;
    }
  }

  /** A closing tag is recognised exactly when `b` starts with one of the
      four, and its length is that tag's length. */
  lemma CloseTagMeaning(b: bytes)
    ensures ReasoningCloseTagLen(b).Some? <==> ClosesReasoning(b)
    ensures ReasoningCloseTagLen(b).Some? ==> ClosesReasoning(b[..ReasoningCloseTagLen(b).value])
  {
    if ClosesReasoning(b) {
      assert |b| >= 8 && b[0] == '<' && b[1] == '/';
      if StartsWith(b, THINK_CLOSE) || StartsWith(b, THINKING_CLOSE) {
        assert b[2] == 't';
      } else if StartsWith(b, REASONING_CLOSE) {
        assert b[2] == 'r';
      } else {
        assert b[2] == 'a';
      }
    }
    var r := ReasoningCloseTagLen(b);
    if r.Some? {
      var t := b[..r.value];
      assert t == THINK_CLOSE || t == THINKING_CLOSE || t == REASONING_CLOSE || t == ANALYSIS_CLOSE;
      assert t[..|t|] == t;
    }
  }

  /** The constant is the length of `</reasoning>`, the longest closing tag. */
  lemma MaxReasoningTagLen()
    ensures MAX_REASONING_TAG_LEN == |REASONING_CLOSE| == 12
    ensures |THINK_CLOSE| <= MAX_REASONING_TAG_LEN && |THINKING_CLOSE| <= MAX_REASONING_TAG_LEN
    ensures |ANALYSIS_CLOSE| <= MAX_REASONING_TAG_LEN
  {
  }

  // ---------------------------------------------------------------------
  // UTF-8 boundaries

  predicate IsContinuation(b: byte) { 0x80 <= b as int < 0xC0 }

  /** Skips UTF-8 continuation bytes from `j` on. */
  function SkipContinuation(b: bytes, j: nat): (r: nat)
    requires j <= |b|
    ensures j <= r <= |b|
    ensures r == |b| || !IsContinuation(b[r])
    decreases |b| - j
  {
    if j < |b| && IsContinuation(b[j]) then SkipContinuation(b, j + 1) else j
  }

  /** `next_utf8_char_boundary`: the start of the character after the one
      at `i`. */
  function NextCharBoundary(b: bytes, i: nat): (r: nat)
    requires i < |b|
    ensures i < r <= |b|
  {
    SkipContinuation(b, i + 1)
  }

  method NextUtf8CharBoundary(b: bytes, i0: nat) returns (i: nat)
    requires i0 < |b|
    ensures i == NextCharBoundary(b, i0)
  {
    i := i0 + 1;
    while i < |b| && IsContinuation(b[i])
      invariant i0 < i <= |b|
      invariant SkipContinuation(b, i) == NextCharBoundary(b, i0)
      decreases |b| - i
    {
      i := i + 1;
    }
  }

  /** The first character boundary at or after `j0`. */
  method SkipToCharBoundary(b: bytes, j0: nat) returns (j: nat)
    requires j0 <= |b|
    ensures j == SkipContinuation(b, j0)
  {
    j := j0;
    while j < |b| && IsContinuation(b[j])
      invariant j0 <= j <= |b|
      invariant SkipContinuation(b, j) == SkipContinuation(b, j0)
      decreases |b| - j
    {
      j := j + 1;
    }
  }

  // ---------------------------------------------------------------------
  // The scan of the buffer

  /** Where the scan stopped, the reasoning depth there, and the trigger's
      index if the scan found it. */
  datatype ScanOut = ScanOut(i: nat, depth: nat, at: Option<nat>)

  /** A trigger at `j`: outside reasoning blocks, complete in the buffer. */
  predicate TriggerAt(buf: bytes, trig: bytes, j: nat, depth: nat) {
    depth == 0 && |trig| > 0 && j + |trig| <= |buf| && StartsWith(buf[j..], trig)
  }

  /** What the scan meets at one position: an opening or a closing
      reasoning tag (with its length), the trigger, or none of these. */
  datatype Mark = Opens(len: nat) | Closes(len: nat) | Trigger | Plain

  /** The tests both scan loops make at `i`, in their order. */
  function MarkAt(buf: bytes, trig: bytes, i: nat, depth: nat): (m: Mark)
    requires i < |buf|
    ensures (m.Opens? || m.Closes?) ==> 0 < m.len <= |buf| - i
    ensures m.Trigger? <==> TriggerAt(buf, trig, i, depth) && ReasoningOpenTagLen(buf[i..]).None? && ReasoningCloseTagLen(buf[i..]).None?
  {
    match ReasoningOpenTagLen(buf[i..])
    case Some(n) => Opens(n)
    case None =>
      match ReasoningCloseTagLen(buf[i..])
      case Some(n) => Closes(n)
      case None => if TriggerAt(buf, trig, i, depth) then Trigger else Plain
  }

  /** The scan when the trigger starts with `<`: jump from `<` to `<` below
      `limit`, following reasoning tags, until the trigger is found. */
  function ScanLt(buf: bytes, trig: bytes, limit: nat, i: nat, depth: nat): (r: ScanOut)
    requires limit <= |buf| && i <= |buf|
    ensures i <= r.i <= |buf|
    ensures r.at.Some? ==> r.at.value == r.i && TriggerAt(buf, trig, r.i, r.depth)
    decreases |buf| - i, 1
  {
    if i >= limit then ScanOut(i, depth, None)
    else
      match FindByte(buf[i..limit], '<', 0)
      case None => ScanOut(limit, depth, None)
      case Some(rel) => ScanLtAt(buf, trig, limit, i + rel, depth)
  }

  /** One round of `ScanLt` at a `<` found at `j`. */
  function ScanLtAt(buf: bytes, trig: bytes, limit: nat, j: nat, depth: nat): (r: ScanOut)
    requires limit <= |buf| && j < limit
    ensures j <= r.i <= |buf|
    ensures r.at.Some? ==> r.at.value == r.i && TriggerAt(buf, trig, r.i, r.depth)
    decreases |buf| - j, 0
  {
    match MarkAt(buf, trig, j, depth)
    case Opens(n) => ScanLt(buf, trig, limit, j + n, depth + 1)
    case Closes(n) => ScanLt(buf, trig, limit, j + n, SaturatingSub(depth, 1))
    case Trigger => ScanOut(j, depth, Some(j))
    case Plain => ScanLt(buf, trig, limit, j + 1, depth)
  }

  /** The scan for any other trigger: byte by byte (character by
      character), stopping once at most `minKeep` bytes are left. */
  function ScanAny(buf: bytes, trig: bytes, minKeep: nat, i: nat, depth: nat): (r: ScanOut)
    requires i <= |buf|
    ensures i <= r.i <= |buf|
    ensures r.at.Some? ==> r.at.value == r.i && TriggerAt(buf, trig, r.i, r.depth)
    decreases |buf| - i, 1
  {
    if i >= |buf| then ScanOut(i, depth, None) else ScanAnyAt(buf, trig, minKeep, i, depth)
  }

  /** One round of `ScanAny` at `i`. */
  function ScanAnyAt(buf: bytes, trig: bytes, minKeep: nat, i: nat, depth: nat): (r: ScanOut)
    requires i < |buf|
    ensures i <= r.i <= |buf|
    ensures r.at.Some? ==> r.at.value == r.i && TriggerAt(buf, trig, r.i, r.depth)
    decreases |buf| - i, 0
  {
    match MarkAt(buf, trig, i, depth)
    case Opens(n) => ScanAny(buf, trig, minKeep, i + n, depth + 1)
    case Closes(n) => ScanAny(buf, trig, minKeep, i + n, SaturatingSub(depth, 1))
    case Trigger => ScanOut(i, depth, Some(i))
    case Plain =>
      if |buf| - i <= minKeep then ScanOut(i, depth, None)
      else ScanAny(buf, trig, minKeep, NextCharBoundary(buf, i), depth)
  }

  /** The `<`-jumping loop of `feed_detecting`. */
  method WalkLt(buf: bytes, trig: bytes, limit: nat, depth0: nat) returns (i: nat, depth: nat, triggerAt: Option<nat>)
    requires limit <= |buf|
    ensures ScanOut(i, depth, triggerAt) == ScanLt(buf, trig, limit, 0, depth0)
  {
    i, depth, triggerAt := 0, depth0, None;
    while i < limit
      invariant i <= |buf|
      invariant ScanLt(buf, trig, limit, i, depth) == ScanLt(buf, trig, limit, 0, depth0)
      decreases |buf| - i
    {
      var relLt := FindByte(buf[i..limit], '<', 0);
      if relLt.None? {
        i := limit;
        break;
      }
      var found;
      i, depth, found := WalkLtAt(buf, trig, limit, i + relLt.value, depth);
      if found {
        triggerAt := Some(i);
        break;
      }
    }
  }

  /** The body of `WalkLt`'s loop at the `<` found at `j`: a reasoning tag
      moves past it, a trigger ends the loop, anything else moves one on. */
  method WalkLtAt(buf: bytes, trig: bytes, limit: nat, j: nat, depth0: nat)
    returns (i: nat, depth: nat, found: bool)
    requires limit <= |buf| && j < limit
    ensures found || j < i <= |buf|
    ensures ScanLtAt(buf, trig, limit, j, depth0) ==
      if found then ScanOut(i, depth, Some(i)) else ScanLt(buf, trig, limit, i, depth)
  {
    i, depth, found := LtRound(buf, trig, j, depth0);
    LtRoundAgrees(buf, trig, limit, j, depth0, i, depth, found);
  }

  /** The tests of `WalkLt`'s loop body at `j`. */
  method LtRound(buf: bytes, trig: bytes, j: nat, depth0: nat)
    returns (i: nat, depth: nat, found: bool)
    requires j < |buf|
    ensures var m := MarkAt(buf, trig, j, depth0);
      && (found <==> m.Trigger?)
      && (m.Opens? ==> i == j + m.len && depth == depth0 + 1)
      && (m.Closes? ==> i == j + m.len && depth == SaturatingSub(depth0, 1))
      && (m.Trigger? ==> i == j && depth == depth0)
      && (m.Plain? ==> i == j + 1 && depth == depth0)
  {
    i, depth, found := j, depth0, false;
    var openLen := ReasoningOpenTagLen(buf[i..]);
    if openLen.Some? {
      depth := depth + 1;
      i := i + openLen.value;
      return;
    }
    var closeLen := ReasoningCloseTagLen(buf[i..]);
    if closeLen.Some? {
      depth := SaturatingSub(depth, 1);
      i := i + closeLen.value;
      return;
    }
    if TriggerAt(buf, trig, i, depth) {
      found := true;
      return;
    }
    i := i + 1;
  }

  /** A round of `WalkLt`'s loop body is a round of `ScanLt`. */
  lemma LtRoundAgrees(buf: bytes, trig: bytes, limit: nat, j: nat, depth0: nat, i: nat, depth: nat, found: bool)
    requires limit <= |buf| && j < limit
    requires var m := MarkAt(buf, trig, j, depth0);
      && (found <==> m.Trigger?)
      && (m.Opens? ==> i == j + m.len && depth == depth0 + 1)
      && (m.Closes? ==> i == j + m.len && depth == SaturatingSub(depth0, 1))
      && (m.Trigger? ==> i == j && depth == depth0)
      && (m.Plain? ==> i == j + 1 && depth == depth0)
    ensures i <= |buf|
    ensures ScanLtAt(buf, trig, limit, j, depth0) == if found then ScanOut(i, depth, Some(i)) else ScanLt(buf, trig, limit, i, depth)
  {
  }

  /** The character-by-character loop of `feed_detecting`. */
  method WalkAny(buf: bytes, trig: bytes, minKeep: nat, depth0: nat) returns (i: nat, depth: nat, triggerAt: Option<nat>)
    ensures ScanOut(i, depth, triggerAt) == ScanAny(buf, trig, minKeep, 0, depth0)
  {
    i, depth, triggerAt := 0, depth0, None;
    while i < |buf|
      invariant i <= |buf|
      invariant triggerAt.None?
      invariant ScanAny(buf, trig, minKeep, i, depth) == ScanAny(buf, trig, minKeep, 0, depth0)
      decreases |buf| - i
    {
      var stop;
      i, depth, triggerAt, stop := WalkAnyAt(buf, trig, minKeep, i, depth);
      if stop {
        break;
      }
    }
  }

  /** The body of `WalkAny`'s loop at `i0`: a reasoning tag moves past it,
      a trigger or the kept tail ends the loop, anything else moves to the
      next character. */
  method WalkAnyAt(buf: bytes, trig: bytes, minKeep: nat, i0: nat, depth0: nat)
    returns (i: nat, depth: nat, triggerAt: Option<nat>, stop: bool)
    requires i0 < |buf|
    ensures stop || (i0 < i <= |buf| && triggerAt.None?)
    ensures ScanAnyAt(buf, trig, minKeep, i0, depth0) ==
      if stop then ScanOut(i, depth, triggerAt) else ScanAny(buf, trig, minKeep, i, depth)
  {
    i, depth, triggerAt, stop := i0, depth0, None, false;
    var openLen := ReasoningOpenTagLen(buf[i..]);
    if openLen.Some? {
      depth := depth + 1;
      i := i + openLen.value;
      return;
    }
    var closeLen := ReasoningCloseTagLen(buf[i..]);
    if closeLen.Some? {
      depth := SaturatingSub(depth, 1);
      i := i + closeLen.value;
      return;
    }
    if TriggerAt(buf, trig, i, depth) {
      triggerAt := Some(i);
      stop := true;
      return;
    }
    var remaining := |buf| - i;
    if remaining <= minKeep {
      stop := true;
      return;
    }
    i := NextUtf8CharBoundary(buf, i);
  }

  // ---------------------------------------------------------------------
  // The detector's steps, on a snapshot of its fields

  /** The fixed settings: the trigger and the buffer bound. */
  datatype Config = Config(trigger: bytes, maxBuffer: nat)

  /** The fields a feed changes: the buffer, the state, the reasoning depth
      and whether `<function_calls>` was seen after the trigger. */
  datatype Det = Det(buffer: bytes, state: DetectorState, thinkDepth: nat, sawOpen: bool)

  const FRESH: Det := Det([], Detecting, 0, false)

  /** A feed's new fields and its action. */
  datatype Step = Step(det: Det, action: DetectorAction)

  predicate StartsWithLt(trigger: bytes) { |trigger| > 0 && trigger[0] == '<' }

  /** Bytes always kept back while detecting: a trigger or a closing tag may
      still be arriving. */
  function MinKeep(trigger: bytes): nat {
    Max(SaturatingSub(|trigger|, 1), MAX_REASONING_TAG_LEN)
  }

  /** The chunk cannot start a trigger: pass it on without buffering. */
  predicate FastPass(c: Config, d: Det, text: bytes) {
    StartsWithLt(c.trigger) && d.buffer == [] && d.thinkDepth == 0 && |text| <= c.maxBuffer && !HasByte(text, '<')
  }

  /** The scan of the whole buffer. On the `<` path a scan that finds no
      trigger stops at `|buf| - MinKeep`, which may fall inside a character;
      the stop is moved on past the character's continuation bytes, which
      neither a trigger nor a reasoning tag can hold, so that the buffer is
      split at a character boundary (`AsWrittenSplitPanics` is the scan
      without this step). */
  function Scan(c: Config, buf: bytes, depth: nat): ScanOut {
    if StartsWithLt(c.trigger) then
      var r := ScanLt(buf, c.trigger, SaturatingSub(|buf|, MinKeep(c.trigger)), 0, depth);
      if r.at.None? then r.(i := SkipContinuation(buf, r.i)) else r
    else ScanAny(buf, c.trigger, MinKeep(c.trigger), 0, depth)
  }

  /** `feed_detecting`. */
  function DetectingStep(c: Config, d: Det, text: bytes): Step
    requires d.state == Detecting
  {
    if FastPass(c, d, text) then Step(d, PassThrough(text))
    else
      var buf := d.buffer + text;
      if |buf| > c.maxBuffer then Step(d.(buffer := [], thinkDepth := 0, sawOpen := false), BufferOverflow(buf))
      else
        ScanStep(d.(buffer := buf), Scan(c, buf, d.thinkDepth))
  }

  /** The end of `feed_detecting`: act on the scan of the whole buffer `d.buffer`. */
  function ScanStep(d: Det, out: ScanOut): Step
    requires out.i <= |d.buffer| && (out.at.Some? ==> out.at.value <= |d.buffer|)
  {
    var buf := d.buffer;
    match out.at
    case Some(j) =>
      if j == 0 then Step(Det(buf, ToolParsing, out.depth, Contains(buf, FC_OPEN)), TriggerFound([]))
      else Step(Det(buf[j..], ToolParsing, out.depth, Contains(buf[j..], FC_OPEN)), TriggerFound(buf[..j]))
    case None =>
      if out.i == 0 then Step(d.(thinkDepth := out.depth), Buffer)
      else Step(d.(buffer := buf[out.i..], thinkDepth := out.depth), PassThrough(buf[..out.i]))
  }

  /** `feed_tool_parsing`. */
  function ToolParsingStep(c: Config, d: Det, text: bytes): Step
    requires d.state == ToolParsing
  {
    var previous := |d.buffer|;
    var searchFrom := SaturatingSub(previous, |FC_CLOSE| - 1);
    var buf := d.buffer + text;
    var saw := d.sawOpen || Contains(buf[SaturatingSub(previous, |FC_OPEN| - 1)..], FC_OPEN);
    if !saw && |buf| > MAX_TRIGGER_PREAMBLE_WITHOUT_FC_OPEN then
      Step(d.(buffer := [], state := Completed, sawOpen := false), BufferOverflow(buf))
    else if |buf| > c.maxBuffer then
      Step(d.(buffer := [], state := Completed, sawOpen := false), BufferOverflow(buf))
    else
      var state := if Contains(buf[searchFrom..], FC_CLOSE) then Completed else ToolParsing;
      Step(d.(buffer := buf, state := state, sawOpen := saw), Buffer)
  }

  /** `feed`. */
  function FeedStep(c: Config, d: Det, text: bytes): Step {
    if text == [] then Step(d, Buffer)
    else
      match d.state
      case Detecting => DetectingStep(c, d, text)
      case ToolParsing => ToolParsingStep(c, d, text)
      case Completed => Step(d, PassThrough(text))
  }

  /** `feed_owned`: `feed` with the pass-through check done before the
      state dispatch. */
  function FeedOwnedStep(c: Config, d: Det, text: bytes): Step {
    if text == [] then Step(d, Buffer)
    else if d.state == Detecting && FastPass(c, d, text) then Step(d, PassThrough(text))
    else
      match d.state
      case Detecting => DetectingStep(c, d, text)
      case ToolParsing => ToolParsingStep(c, d, text)
      case Completed => Step(d, PassThrough(text))
  }

  /** `finalize`: the buffered text, if any, which leaves the buffer. */
  function FinalizeStep(d: Det): (Det, Option<bytes>) {
    if d.buffer == [] then (d, None) else (d.(buffer := []), Some(d.buffer))
  }

  // ---------------------------------------------------------------------
  // The detector object

  /** `StreamingFcDetector`. */
  class StreamingFcDetector {
    const trigger: bytes
    const triggerStartsWithLt: bool
    var buffer: bytes
    var state: DetectorState
    var thinkDepth: nat
    var maxBufferSize: nat
    var sawFunctionCallsOpen: bool

    ghost predicate Valid()
      reads this
    {
      triggerStartsWithLt == StartsWithLt(trigger)
    }

    function Cfg(): Config
      reads this
    {
      Config(trigger, maxBufferSize)
    }

    function Snapshot(): Det
      reads this
    {
      Det(buffer, state, thinkDepth, sawFunctionCallsOpen)
    }

    /** `StreamingFcDetector::new`. */
    constructor (triggerSignal: bytes)
      ensures Valid() && Cfg() == Config(triggerSignal, DEFAULT_MAX_BUFFER) && Snapshot() == FRESH
    {
      trigger := triggerSignal;
      triggerStartsWithLt := |triggerSignal| > 0 && triggerSignal[0] == '<';
      buffer := [];
      state := Detecting;
      thinkDepth := 0;
      maxBufferSize := DEFAULT_MAX_BUFFER;
      sawFunctionCallsOpen := false;
    }

    /** `feed`. */
    method Feed(text: bytes) returns (action: DetectorAction)
      requires Valid()
      modifies this
      ensures Valid() && Cfg() == old(Cfg())
      ensures Step(Snapshot(), action) == FeedStep(old(Cfg()), old(Snapshot()), text)
    {
      if text == [] {
        return Buffer;
      }
      match state
      case Detecting => action := FeedDetecting(text);
      case ToolParsing => action := FeedToolParsing(text);
      case Completed => action := PassThrough(text);
    }

    /** `feed_owned`. */
    method FeedOwned(text: bytes) returns (action: DetectorAction)
      requires Valid()
      modifies this
      ensures Valid() && Cfg() == old(Cfg())
      ensures Step(Snapshot(), action) == FeedOwnedStep(old(Cfg()), old(Snapshot()), text)
    {
      if text == [] {
        return Buffer;
      }
      if state == Detecting && triggerStartsWithLt && buffer == [] && thinkDepth == 0
        && |text| <= maxBufferSize && !HasByte(text, '<')
      {
        return PassThrough(text);
      }
      match state
      case Detecting => action := FeedDetecting(text);
      case ToolParsing => action := FeedToolParsing(text);
      case Completed => action := PassThrough(text);
    }

    /** `finalize`. */
    method Finalize() returns (remaining: Option<bytes>)
      modifies this
      ensures Valid() == old(Valid()) && Cfg() == old(Cfg())
      ensures (Snapshot(), remaining) == FinalizeStep(old(Snapshot()))
    {
      if buffer == [] {
        return None;
      }
      remaining := Some(buffer);
      buffer := [];
    }

    /** `feed_detecting`. */
    method FeedDetecting(text: bytes) returns (action: DetectorAction)
      requires Valid() && state == Detecting
      modifies this
      ensures Valid() && Cfg() == old(Cfg())
      ensures Step(Snapshot(), action) == DetectingStep(old(Cfg()), old(Snapshot()), text)
    {
      var minKeep := Max(SaturatingSub(|trigger|, 1), MAX_REASONING_TAG_LEN);
      if triggerStartsWithLt && buffer == [] && thinkDepth == 0 && |text| <= maxBufferSize && !HasByte(text, '<') {
        return PassThrough(text);
      }
      buffer := buffer + text;
      if |buffer| > maxBufferSize {
        var flushed := buffer;
        buffer := [];
        thinkDepth := 0;
        sawFunctionCallsOpen := false;
        return BufferOverflow(flushed);
      }
      var i, depth, triggerAt;
      if triggerStartsWithLt {
        i, depth, triggerAt := WalkLt(buffer, trigger, SaturatingSub(|buffer|, minKeep), thinkDepth);
        if triggerAt.None? {
          i := SkipToCharBoundary(buffer, i);
        }
      } else {
        i, depth, triggerAt := WalkAny(buffer, trigger, minKeep, thinkDepth);
      }
      action := Settle(i, depth, triggerAt);
    }

    /** The end of `feed_detecting`, once the buffer has been scanned. */
    method Settle(i: nat, depth: nat, triggerAt: Option<nat>) returns (action: DetectorAction)
      requires Valid() && state == Detecting
      requires i <= |buffer| && (triggerAt.Some? ==> triggerAt.value <= |buffer|)
      modifies this
      ensures Valid() && Cfg() == old(Cfg())
      ensures Step(Snapshot(), action) == ScanStep(old(Snapshot()), ScanOut(i, depth, triggerAt))
    {
      thinkDepth := depth;
      if triggerAt.Some? {
        var triggerIndex := triggerAt.value;
        state := ToolParsing;
        if triggerIndex == 0 {
          sawFunctionCallsOpen := Contains(buffer, FC_OPEN);
          return TriggerFound([]);
        }
        var textBefore := buffer[..triggerIndex];
        buffer := buffer[triggerIndex..];
        sawFunctionCallsOpen := Contains(buffer, FC_OPEN);
        return TriggerFound(textBefore);
      }
      if i == 0 {
        return Buffer;
      }
      var passThrough := buffer[..i];
      buffer := buffer[i..];
      return PassThrough(passThrough);
    }

    /** `feed_tool_parsing`. */
    method FeedToolParsing(text: bytes) returns (action: DetectorAction)
      requires Valid() && state == ToolParsing
      modifies this
      ensures Valid() && Cfg() == old(Cfg())
      ensures Step(Snapshot(), action) == ToolParsingStep(old(Cfg()), old(Snapshot()), text)
    {
      var previousLen := |buffer|;
      var searchFrom := SaturatingSub(previousLen, |FC_CLOSE| - 1);
      buffer := buffer + text;
      if !sawFunctionCallsOpen {
        sawFunctionCallsOpen := Contains(buffer[SaturatingSub(previousLen, |FC_OPEN| - 1)..], FC_OPEN);
        if !sawFunctionCallsOpen && |buffer| > MAX_TRIGGER_PREAMBLE_WITHOUT_FC_OPEN {
          var flushed := buffer;
          buffer := [];
          state := Completed;
          return BufferOverflow(flushed);
        }
      }
      if |buffer| > maxBufferSize {
        var flushed := buffer;
        buffer := [];
        state := Completed;
        sawFunctionCallsOpen := false;
        return BufferOverflow(flushed);
      }
      if Contains(buffer[searchFrom..], FC_CLOSE) {
        state := Completed;
      }
      return Buffer;
    }
  }

  // ---------------------------------------------------------------------
  // Properties

  /** The text a feed hands to the client. */
  function Emitted(a: DetectorAction): bytes {
    match a
    case PassThrough(t) => t
    case Buffer => []
    case TriggerFound(t) => t
    case BufferOverflow(t) => t
  }

  /** While detecting nothing is lost or reordered: the text handed on,
      followed by the new buffer, is the old buffer followed by the input. */
  lemma DetectingKeepsText(c: Config, d: Det, text: bytes)
    requires d.state == Detecting
    ensures var s := FeedStep(c, d, text);
      Emitted(s.action) + s.det.buffer == d.buffer + text
  {
    var buf := d.buffer + text;
    if text != [] && !FastPass(c, d, text) && |buf| <= c.maxBuffer {
      var out := Scan(c, buf, d.thinkDepth);
      if out.at.Some? {
        assert buf[..out.at.value] + buf[out.at.value..] == buf;
      } else {
        assert buf[..out.i] + buf[out.i..] == buf;
      }
    }
  }

  /** As written, `feed_detecting` splits the buffer at the `<` scan's stop
      index itself, and `String::split_off` panics when that index falls
      inside a character. */
  predicate AsWrittenSplitPanics(c: Config, d: Det, text: bytes) {
    d.state == Detecting && text != [] && !FastPass(c, d, text) && StartsWithLt(c.trigger)
    && |d.buffer + text| <= c.maxBuffer
    && var buf := d.buffer + text;
       var r := ScanLt(buf, c.trigger, SaturatingSub(|buf|, MinKeep(c.trigger)), 0, d.thinkDepth);
       r.at.None? && 0 < r.i < |buf| && IsContinuation(buf[r.i])
  }

  const SAMPLE_TRIGGER: bytes := "<Function_AB12_Start/>"

  /** `<` followed by eleven two-byte characters (U+00E9). */
  const SAMPLE_CHUNK: bytes := "<\U{C3}\U{A9}\U{C3}\U{A9}\U{C3}\U{A9}\U{C3}\U{A9}\U{C3}\U{A9}\U{C3}\U{A9}\U{C3}\U{A9}\U{C3}\U{A9}\U{C3}\U{A9}\U{C3}\U{A9}\U{C3}\U{A9}"

  /** A fresh detector fed `<` and eleven two-byte characters keeps back the
      last 21 bytes, so the `<` scan stops at byte 2, the second byte of the
      first character, where the source panics; the model hands on `<` and
      the whole first character instead. */
  lemma AsWrittenScanLimitSplits()
    ensures AsWrittenSplitPanics(Config(SAMPLE_TRIGGER, DEFAULT_MAX_BUFFER), FRESH, SAMPLE_CHUNK)
    ensures FeedStep(Config(SAMPLE_TRIGGER, DEFAULT_MAX_BUFFER), FRESH, SAMPLE_CHUNK).action
      == PassThrough(SAMPLE_CHUNK[..3])
  {
    var buf := SAMPLE_CHUNK;
    var trig := SAMPLE_TRIGGER;
    assert |buf| == 23 && |trig| == 22 && MinKeep(trig) == 21;
    assert buf[0] == '<' && buf[1] == '\U{C3}' && IsContinuation(buf[2]) && !IsContinuation(buf[3]);
    assert FindByte(buf[1..2], '<', 0) == None by {
      assert buf[1..2] == ['\U{C3}'];
    }
    assert FindByte(buf[0..2], '<', 0) == Some(0) by {
      assert buf[0..2][0] == '<';
    }
    assert ReasoningOpenTagLen(buf[0..]) == None;
    assert ReasoningCloseTagLen(buf[0..]) == None;
    assert !TriggerAt(buf, trig, 0, 0) by {
      assert buf[0..][..|trig|][1] != trig[1];
    }
    assert ScanLt(buf, trig, 2, 0, 0) == ScanOut(2, 0, None);
    assert SkipContinuation(buf, 2) == 3;
  }

  /** Whenever a feed in the `<` mode hands text on and keeps some back, the
      bytes kept back start at a character boundary. */
  lemma SplitAtCharBoundary(c: Config, d: Det, text: bytes)
    requires d.state == Detecting && StartsWithLt(c.trigger)
    ensures var s := FeedStep(c, d, text);
      Emitted(s.action) != [] && s.det.buffer != [] ==> !IsContinuation(s.det.buffer[0])
  {
    var buf := d.buffer + text;
    if text != [] && !FastPass(c, d, text) && |buf| <= c.maxBuffer {
      var out := Scan(c, buf, d.thinkDepth);
      if out.at.Some? && out.at.value > 0 {
        var j := out.at.value;
        assert StartsWith(buf[j..], c.trigger);
        assert buf[j..][0] == c.trigger[0];
      }
    }
  }

  /** `feed_owned` acts exactly as `feed`: its early pass-through is the one
      `feed_detecting` takes. */
  lemma FeedOwnedIsFeed(c: Config, d: Det, text: bytes)
    ensures FeedOwnedStep(c, d, text) == FeedStep(c, d, text)
  {
  }

  /** A buffer overflow hands on the whole buffer with the input and
      empties the buffer: while detecting it resets the reasoning depth and
      keeps detecting, after the trigger it completes. */
  lemma OverflowFlushesAll(c: Config, d: Det, text: bytes)
    ensures var s := FeedStep(c, d, text);
      s.action.BufferOverflow? ==>
        && s.action.flushed == d.buffer + text && s.det.buffer == []
        && (d.state == Detecting ==> s.det.state == Detecting && s.det.thinkDepth == 0)
        && (d.state == ToolParsing ==> s.det.state == Completed)
  {
  }

  /** While detecting, a buffer grown past the bound overflows. */
  lemma DetectingOverflow(c: Config, d: Det, text: bytes)
    requires d.state == Detecting && text != [] && |d.buffer + text| > c.maxBuffer
    ensures FeedStep(c, d, text).action == BufferOverflow(d.buffer + text)
  {
  }

  /** A trigger is only reported while detecting and outside reasoning
      blocks: the state becomes `ToolParsing`, `text_before` is the text
      before the trigger and the buffer starts with the trigger. */
  lemma TriggerFoundShape(c: Config, d: Det, text: bytes)
    ensures var s := FeedStep(c, d, text);
      s.action.TriggerFound? ==>
        && d.state == Detecting && s.det.state == ToolParsing && s.det.thinkDepth == 0
        && |c.trigger| > 0 && StartsWith(s.det.buffer, c.trigger)
        && s.action.textBefore + s.det.buffer == d.buffer + text
  {
    var s := FeedStep(c, d, text);
    if s.action.TriggerFound? {
      var buf := d.buffer + text;
      var out := Scan(c, buf, d.thinkDepth);
      var j := out.at.value;
      assert buf[..j] + buf[j..] == buf;
      assert buf[j..][..|c.trigger|] == c.trigger;
    }
  }

  /** Inside an open reasoning block with no closing tag before the scan
      limit, the `<`-jumping scan never reports the trigger. */
  lemma {:induction false} HiddenInReasoning(buf: bytes, trig: bytes, limit: nat, i: nat, depth: nat)
    requires limit <= |buf| && i <= |buf| && depth > 0
    requires forall k | i <= k < limit :: !ClosesReasoning(buf[k..])
    ensures ScanLt(buf, trig, limit, i, depth).at.None?
    ensures ScanLt(buf, trig, limit, i, depth).depth >= depth
    decreases |buf| - i
  {
    if i < limit {
      var found, next, d := HiddenStep(buf, trig, limit, i, depth);
      if found {
        HiddenInReasoning(buf, trig, limit, next, d);
      }
    }
  }

  /** One jump of the `<`-jumping scan inside a reasoning block: either no
      `<` is left below `limit`, or the scan goes on past `i`, no shallower. */
  lemma HiddenStep(buf: bytes, trig: bytes, limit: nat, i: nat, depth: nat) returns (found: bool, next: nat, d: nat)
    requires limit <= |buf| && i < limit && depth > 0
    requires forall k | i <= k < limit :: !ClosesReasoning(buf[k..])
    ensures !found ==> ScanLt(buf, trig, limit, i, depth) == ScanOut(limit, depth, None)
    ensures found ==> i < next <= |buf| && d >= depth && ScanLt(buf, trig, limit, i, depth) == ScanLt(buf, trig, limit, next, d)
  {
    match FindByte(buf[i..limit], '<', 0)
    case None =>
      found, next, d := false, limit, depth;
    case Some(rel) =>
      found := true;
      next, d := HiddenAt(buf, trig, limit, i + rel, depth);
  }

  /** One round of the `<`-jumping scan inside a reasoning block, at a `<`
      that does not close it: the scan goes on, no shallower. */
  lemma HiddenAt(buf: bytes, trig: bytes, limit: nat, j: nat, depth: nat) returns (next: nat, d: nat)
    requires limit <= |buf| && j < limit && depth > 0 && !ClosesReasoning(buf[j..])
    ensures j < next <= |buf| && d >= depth
    ensures ScanLtAt(buf, trig, limit, j, depth) == ScanLt(buf, trig, limit, next, d)
  {
    CloseTagMeaning(buf[j..]);
    match ReasoningOpenTagLen(buf[j..])
    case Some(n) =>
      next, d := j + n, depth + 1;
    case None =>
      next, d := j + 1, depth;
  }

  /** While detecting, a feed reports the trigger exactly when the scan of
      the grown buffer finds one, and only a reported trigger leaves the
      `Detecting` state. */
  lemma DetectingTriggerIffScan(c: Config, d: Det, text: bytes)
    requires d.state == Detecting && text != [] && |d.buffer + text| <= c.maxBuffer
    ensures var s := FeedStep(c, d, text);
      && (s.action.TriggerFound? <==> Scan(c, d.buffer + text, d.thinkDepth).at.Some?)
      && (s.det.state == Detecting <==> !s.action.TriggerFound?)
  {
    if FastPass(c, d, text) {
      assert d.buffer + text == text;
      NoLtNoTrigger(c, text, d.thinkDepth);
    }
  }

  /** Bytes without `<` hold no trigger that starts with `<`. */
  lemma NoLtNoTrigger(c: Config, buf: bytes, depth: nat)
    requires StartsWithLt(c.trigger) && !HasByte(buf, '<')
    ensures Scan(c, buf, depth).at.None?
  {
    var limit := SaturatingSub(|buf|, MinKeep(c.trigger));
    if 0 < limit {
      assert forall k | 0 <= k < limit :: buf[0..limit][k] != '<' by {
        forall k | 0 <= k < limit
          ensures buf[0..limit][k] != '<'
        {
          assert buf[0..limit][k] == buf[k];
        }
      }
    }
  }

  /** A buffer that opens with `<think>`: the scan enters the block. */
  lemma ThinkOpenEntersBlock(buf: bytes, trig: bytes, limit: nat)
    requires StartsWith(buf, THINK_OPEN) && 0 < limit <= |buf|
    ensures ScanLt(buf, trig, limit, 0, 0) == ScanLt(buf, trig, limit, |THINK_OPEN|, 1)
  {
    assert buf[0] == '<' by {
      assert buf[..|THINK_OPEN|][0] == THINK_OPEN[0];
    }
    var r := FindByte(buf[0..limit], '<', 0);
    assert buf[0..limit][0] == '<';
    assert r == Some(0);
    assert buf[0..] == buf;
    assert buf[1] == 't' by {
      assert buf[..|THINK_OPEN|][1] == THINK_OPEN[1];
    }
    assert ReasoningOpenTagLen(buf) == Some(|THINK_OPEN|);
  }

  /** No `</` in `body` means no closing reasoning tag after `<think>`. */
  lemma BodyClosesNothing(buf: bytes, body: bytes)
    requires buf == THINK_OPEN + body
    requires forall k | 0 <= k < |body| - 1 :: !(body[k] == '<' && body[k + 1] == '/')
    ensures forall k | |THINK_OPEN| <= k <= |buf| :: !ClosesReasoning(buf[k..])
  {
    forall k | |THINK_OPEN| <= k <= |buf|
      ensures !ClosesReasoning(buf[k..])
    {
      CloseTagMeaning(buf[k..]);
      if k + 1 < |buf| {
        var m := k - |THINK_OPEN|;
        assert buf[k] == body[m] && buf[k + 1] == body[m + 1];
      }
    }
  }

  /** A chunk that opens a `<think>` block and holds no `</`, fed to a
      fresh detector whose trigger starts with `<`, never reports the
      trigger, wherever the trigger occurs in it; the detector keeps
      detecting. */
  lemma ThinkBlockHidesTrigger(c: Config, body: bytes)
    requires StartsWithLt(c.trigger) && |THINK_OPEN + body| <= c.maxBuffer
    requires forall k | 0 <= k < |body| - 1 :: !(body[k] == '<' && body[k + 1] == '/')
    ensures var s := FeedStep(c, FRESH, THINK_OPEN + body);
      !s.action.TriggerFound? && s.det.state == Detecting
  {
    var buf := THINK_OPEN + body;
    assert [] + buf == buf;
    assert StartsWith(buf, THINK_OPEN) by {
      assert buf[..|THINK_OPEN|] == THINK_OPEN;
    }
    var limit := SaturatingSub(|buf|, MinKeep(c.trigger));
    assert Scan(c, buf, 0).at == ScanLt(buf, c.trigger, limit, 0, 0).at;
    if 0 < limit {
      ThinkOpenEntersBlock(buf, c.trigger, limit);
      BodyClosesNothing(buf, body);
      HiddenInReasoning(buf, c.trigger, limit, |THINK_OPEN|, 1);
    }
    DetectingTriggerIffScan(c, FRESH, buf);
  }

  /** Plain text without `<`, fed to a fresh detector whose trigger starts
      with `<`, passes through at once. */
  lemma PlainTextPassesThrough(c: Config, text: bytes)
    requires StartsWithLt(c.trigger) && text != [] && |text| <= c.maxBuffer && !HasByte(text, '<')
    ensures FeedStep(c, FRESH, text) == Step(FRESH, PassThrough(text))
  {
  }

  /** A chunk of plain text, the trigger and enough text after it, fed to a
      fresh detector, reports the trigger with the plain text before it;
      the buffer keeps the trigger and what follows. */
  lemma TriggerAfterPlainText(c: Config, pre: bytes, rest: bytes)
    requires StartsWithLt(c.trigger) && |c.trigger| >= 2
    requires c.trigger[1] != 't' && c.trigger[1] != 'r' && c.trigger[1] != 'a' && c.trigger[1] != '/'
    requires !HasByte(pre, '<') && |rest| >= MinKeep(c.trigger)
    requires |pre + c.trigger + rest| <= c.maxBuffer
    ensures var s := FeedStep(c, FRESH, pre + c.trigger + rest);
      s.action == TriggerFound(pre) && s.det.state == ToolParsing && s.det.buffer == c.trigger + rest
  {
    var buf := pre + c.trigger + rest;
    var p := |pre|;
    assert buf[..p] == pre && buf[p..] == c.trigger + rest;
    assert Scan(c, buf, FRESH.thinkDepth) == ScanOut(p, 0, Some(p)) by {
      PlainThenTriggerScan(c, buf, p, rest);
    }
    TriggerSplitsBuffer(c, FRESH, buf);
  }

  /** The scan of plain text followed by the trigger stops at the trigger. */
  lemma PlainThenTriggerScan(c: Config, buf: bytes, p: nat, rest: bytes)
    requires StartsWithLt(c.trigger) && |c.trigger| >= 2
    requires c.trigger[1] != 't' && c.trigger[1] != 'r' && c.trigger[1] != 'a' && c.trigger[1] != '/'
    requires p <= |buf| && !HasByte(buf[..p], '<') && buf[p..] == c.trigger + rest && |rest| >= MinKeep(c.trigger)
    ensures Scan(c, buf, 0) == ScanOut(p, 0, Some(p))
  {
    var limit := SaturatingSub(|buf|, MinKeep(c.trigger));
    assert p < limit;
    assert buf[p] == buf[p..][0] == '<';
    FirstLtAt(buf, p, limit);
    TriggerAtPlain(buf, c.trigger, rest, limit, p);
  }

  /** The first `<` below `limit` is at `p` when none comes before. */
  lemma FirstLtAt(buf: bytes, p: nat, limit: nat)
    requires p < limit <= |buf| && buf[p] == '<' && !HasByte(buf[..p], '<')
    ensures FindByte(buf[0..limit], '<', 0) == Some(p)
  {
    assert buf[0..limit][p] == '<';
    forall k | 0 <= k < p
      ensures buf[0..limit][k] != '<'
    {
      assert buf[0..limit][k] == buf[..p][k];
    }
  }

  /** At a `<` that starts the trigger and no reasoning tag, outside any
      block, the scan stops with the trigger. */
  lemma TriggerAtPlain(buf: bytes, trig: bytes, rest: bytes, limit: nat, p: nat)
    requires p < limit <= |buf| && buf[p..] == trig + rest && |trig| >= 2 && trig[0] == '<'
    requires trig[1] != 't' && trig[1] != 'r' && trig[1] != 'a' && trig[1] != '/'
    ensures ScanLtAt(buf, trig, limit, p, 0) == ScanOut(p, 0, Some(p))
  {
    var tail := buf[p..];
    assert tail[1] == trig[1];
    assert ReasoningOpenTagLen(tail).None?;
    assert ReasoningCloseTagLen(tail).None?;
    assert tail[..|trig|] == trig;
    assert TriggerAt(buf, trig, p, 0);
  }

  /** While detecting, a trigger found at `j` splits the grown buffer
      there: the text before it is handed on, the rest is kept. */
  lemma TriggerSplitsBuffer(c: Config, d: Det, buf: bytes)
    requires d.state == Detecting && d.buffer == [] && buf != [] && |buf| <= c.maxBuffer
    requires Scan(c, buf, d.thinkDepth).at.Some?
    ensures var j := Scan(c, buf, d.thinkDepth).at.value; var s := FeedStep(c, d, buf);
      j <= |buf| && s.action == TriggerFound(buf[..j]) && s.det.buffer == buf[j..] && s.det.state == ToolParsing
  {
    assert [] + buf == buf;
    if FastPass(c, d, buf) {
      NoLtNoTrigger(c, buf, d.thinkDepth);
    }
  }

  /** What `feed_tool_parsing` relies on: while no `<function_calls>` has
      been seen after the trigger, the buffer holds none. */
  ghost predicate Inv(d: Det) {
    d.state == ToolParsing && !d.sawOpen ==> !Contains(d.buffer, FC_OPEN)
  }

  /** A match of `p` in `a + b` that is not in `a` starts within the last
      `|p| - 1` bytes of `a`, so a search from there finds it. */
  lemma ContainsSince(a: bytes, b: bytes, p: bytes)
    requires |p| > 0 && !Contains(a, p)
    ensures Contains(a + b, p) <==> Contains((a + b)[SaturatingSub(|a|, |p| - 1)..], p)
  {
    var s := a + b;
    var from := SaturatingSub(|a|, |p| - 1);
    ContainsIff(s, p);
    ContainsIff(s[from..], p);
    ContainsIff(a, p);
    if Contains(s, p) {
      var k: nat :| MatchAt(s, p, k);
      MatchSince(a, b, p, k);
      MatchInSuffix(s, p, from, k);
    }
    if Contains(s[from..], p) {
      var k: nat :| MatchAt(s[from..], p, k);
      MatchFromSuffix(s, p, from, k);
    }
  }

  /** A match in `a + b` at `k` that ends within `a` is a match in `a`. */
  lemma MatchSince(a: bytes, b: bytes, p: bytes, k: nat)
    requires MatchAt(a + b, p, k)
    ensures k + |p| <= |a| ==> MatchAt(a, p, k)
  {
    if k + |p| <= |a| {
      assert a[k..k + |p|] == (a + b)[k..k + |p|];
    }
  }

  lemma MatchInSuffix(s: bytes, p: bytes, from: nat, k: nat)
    requires from <= k && MatchAt(s, p, k)
    ensures MatchAt(s[from..], p, k - from)
  {
    assert s[from..][k - from..k - from + |p|] == s[k..k + |p|];
  }

  lemma MatchFromSuffix(s: bytes, p: bytes, from: nat, k: nat)
    requires from <= |s| && MatchAt(s[from..], p, k)
    ensures MatchAt(s, p, k + from)
  {
    assert s[from..][k..k + |p|] == s[k + from..k + from + |p|];
  }

  /** Every feed keeps `Inv`, and after the trigger the seen flag then
      tells exactly whether the buffer holds `<function_calls>`. */
  lemma FeedKeepsInv(c: Config, d: Det, text: bytes)
    requires Inv(d)
    ensures Inv(FeedStep(c, d, text).det)
    ensures var s := FeedStep(c, d, text);
      d.state == ToolParsing && s.action.Buffer? && text != [] ==> s.det.sawOpen == (d.sawOpen || Contains(s.det.buffer, FC_OPEN))
  {
    if text != [] && d.state == ToolParsing && !d.sawOpen {
      ContainsSince(d.buffer, text, FC_OPEN);
    }
  }

  /** After the trigger, a feed only buffers, unless the buffer overflows;
      without a `<function_calls>` in the first 4096 bytes it overflows and
      completes. */
  lemma ToolParsingBuffers(c: Config, d: Det, text: bytes)
    requires Inv(d) && d.state == ToolParsing && text != []
    ensures var s := FeedStep(c, d, text);
      && (s.action.Buffer? || s.action.BufferOverflow?)
      && (s.action.Buffer? ==> s.det.buffer == d.buffer + text)
      && (!d.sawOpen && !Contains(d.buffer + text, FC_OPEN) && |d.buffer + text| > MAX_TRIGGER_PREAMBLE_WITHOUT_FC_OPEN ==>
            s.action == BufferOverflow(d.buffer + text) && s.det.state == Completed)
      && ((d.sawOpen || Contains(d.buffer + text, FC_OPEN)) && |d.buffer + text| <= c.maxBuffer ==> s.action.Buffer?)
  {
    if !d.sawOpen {
      ContainsSince(d.buffer, text, FC_OPEN);
    }
  }

  /** After the trigger, a feed that buffers completes exactly when the
      closing tag appears in the bytes from 16 before the old end on; when
      the old buffer held no closing tag, exactly when the buffer holds one. */
  lemma ToolParsingCompletes(c: Config, d: Det, text: bytes)
    requires d.state == ToolParsing && text != []
    ensures var s := FeedStep(c, d, text);
      s.action.Buffer? ==>
        && (s.det.state == Completed <==> Contains(s.det.buffer[SaturatingSub(|d.buffer|, |FC_CLOSE| - 1)..], FC_CLOSE))
        && (!Contains(d.buffer, FC_CLOSE) ==> (s.det.state == Completed <==> Contains(s.det.buffer, FC_CLOSE)))
  {
    if !Contains(d.buffer, FC_CLOSE) {
      ContainsSince(d.buffer, text, FC_CLOSE);
    }
  }

  /** A closing tag that came with the trigger chunk is not searched again:
      a later feed of text without `<` leaves the detector parsing although
      its buffer holds the closing tag. */
  lemma CloseBeforeFeedNotSeen(c: Config, d: Det, text: bytes)
    requires d.state == ToolParsing && d.sawOpen && EndsWith(d.buffer, FC_CLOSE)
    requires text != [] && !HasByte(text, '<') && |d.buffer + text| <= c.maxBuffer
    ensures var s := FeedStep(c, d, text);
      s.action == Buffer && s.det.state == ToolParsing && Contains(s.det.buffer, FC_CLOSE)
  {
    var buf := d.buffer + text;
    var from := SaturatingSub(|d.buffer|, |FC_CLOSE| - 1);
    assert !Contains(buf[from..], FC_CLOSE) by {
      SearchedTailHasNoLt(d.buffer, text);
      NoLtNoMatch(buf[from..], FC_CLOSE);
    }
    assert Contains(buf, FC_CLOSE) by {
      EndsWithContains(d.buffer, text, FC_CLOSE);
    }
  }

  lemma EndsWithContains(a: bytes, b: bytes, p: bytes)
    requires EndsWith(a, p)
    ensures Contains(a + b, p)
  {
    ContainsIff(a + b, p);
    assert (a + b)[|a| - |p|..|a|] == a[|a| - |p|..];
    assert MatchAt(a + b, p, |a| - |p|);
  }

  /** After a buffer ending in the closing tag, the searched bytes are the
      tag without its `<`, then the new text. */
  lemma SearchedTailHasNoLt(buffer: bytes, text: bytes)
    requires EndsWith(buffer, FC_CLOSE) && !HasByte(text, '<')
    ensures !HasByte((buffer + text)[|buffer| - (|FC_CLOSE| - 1)..], '<')
  {
    var from := |buffer| - (|FC_CLOSE| - 1);
    var t := (buffer + text)[from..];
    forall k | 0 <= k < |t|
      ensures t[k] != '<'
    {
      if k < |FC_CLOSE| - 1 {
        assert t[k] == buffer[from + k] == FC_CLOSE[k + 1];
      } else {
        assert t[k] == text[k - (|FC_CLOSE| - 1)];
      }
    }
  }

  /** A pattern that starts with `<` does not occur in bytes without `<`. */
  lemma NoLtNoMatch(t: bytes, p: bytes)
    requires |p| > 0 && p[0] == '<' && !HasByte(t, '<')
    ensures !Contains(t, p)
  {
    ContainsIff(t, p);
    forall k: nat
      ensures !MatchAt(t, p, k)
    {
      if k + |p| <= |t| {
        assert t[k..k + |p|][0] == t[k] != '<';
      }
    }
  }

  /** Once completed, every non-empty chunk passes through unchanged and
      the detector stays completed; an empty chunk always gives `Buffer`. */
  lemma CompletedPassesThrough(c: Config, d: Det, text: bytes)
    ensures FeedStep(c, d, []) == Step(d, Buffer)
    ensures d.state == Completed && text != [] ==> FeedStep(c, d, text) == Step(d, PassThrough(text))
  {
  }

  /** `finalize` returns the buffer, None when it is empty, and leaves it
      empty; nothing else changes. */
  lemma FinalizeTakesBuffer(d: Det)
    ensures var (d', r) := FinalizeStep(d);
      && d'.buffer == [] && d' == d.(buffer := [])
      && (r.None? <==> d.buffer == []) && (r.Some? ==> r.value == d.buffer)
  {
  }
}
