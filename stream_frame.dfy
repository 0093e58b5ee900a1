/** `src/stream/mod.rs`, the single-frame part: `parse_sse_frame_bytes`
    with its two fast paths, the generic encoder of canonical stream events
    and the arguments text of a parsed tool call. The single-frame parser
    reads a complete frame in one go; it is proved to agree with the
    incremental parser of module `Sse` on the first event. */
module StreamFrame {
  import opened Wrappers
  import opened Bytes
  import opened Ints
  import Util
  import Sse
  import Canonical
  import Errors

  type SseEvent = Sse.SseEvent

  // ---------------------------------------------------------------------
  // The general parser

  /** The fields `parse_sse_frame_bytes` collects while reading lines. */
  datatype FrameState = FrameState(event: Option<bytes>, data: bytes, hasData: bool, id: Option<bytes>, retry: Option<u64>)

  const START: FrameState := FrameState(None, [], false, None, None)

  const RETRY_FIELD: bytes := "retry:"

  /** The event a blank line after data returns. */
  function Emit(st: FrameState): SseEvent {
    Sse.SseEvent(st.event, st.data, st.id, st.retry)
  }

  /** One non-blank line: a comment is skipped, `data:` appends to the data
      (joined with `\n`), `event:` and `id:` set their fields, `retry:` sets
      the retry to the trimmed value parsed as a `u64` (None when it does
      not parse), and any other field is ignored. */
  function FrameLine(st: FrameState, line: bytes): FrameState
    requires line != []
  {
    if line[0] == ':' then st
    else if StartsWith(line, Sse.DATA_FIELD) then
      var v := Sse.StripOneSpace(line[5..]);
      st.(data := if st.hasData then st.data + "\n" + v else st.data + v, hasData := true)
    else if StartsWith(line, Sse.EVENT_FIELD) then st.(event := Some(Sse.StripOneSpace(line[6..])))
    else if StartsWith(line, Sse.ID_FIELD) then st.(id := Some(Sse.StripOneSpace(line[3..])))
    else if StartsWith(line, RETRY_FIELD) then st.(retry := Util.ParseU64(Trim(Sse.StripOneSpace(line[6..]))))
    else st
  }

  /** The loop of `parse_sse_frame_bytes` on the text from `line_start` on:
      every `\n` ends a line, which loses one trailing `\r`; the first blank
      line after data returns the event; text that ends before such a line
      gives None. */
  function FrameFrom(st: FrameState, text: bytes): Option<SseEvent>
    decreases |text|
  {
    match FindByte(text, '\n', 0)
    case None => None
    case Some(nl) =>
      var line := Sse.StripCr(text[..nl]);
      if line == [] then
        if st.hasData then Some(Emit(st)) else FrameFrom(st, text[nl + 1..])
      else FrameFrom(FrameLine(st, line), text[nl + 1..])
  }

  /** `memchr` finds the `\n` that ends the first line. */
  lemma FirstNewline(l: bytes, more: bytes)
    requires !HasByte(l, '\n')
    ensures FindByte(l + "\n" + more, '\n', 0) == Some(|l|)
  {
    var t := l + "\n" + more;
    assert t[|l|] == '\n';
    assert forall k | 0 <= k < |l| :: t[k] == l[k];
  }

  /** One line of the loop, seen from its text. */
  lemma FrameFromStep(st: FrameState, l: bytes, more: bytes)
    requires !HasByte(l, '\n')
    ensures var line := Sse.StripCr(l);
      FrameFrom(st, l + "\n" + more) ==
        if line == [] then (if st.hasData then Some(Emit(st)) else FrameFrom(st, more))
        else FrameFrom(FrameLine(st, line), more)
  {
    var t := l + "\n" + more;
    FirstNewline(l, more);
    assert t[..|l|] == l && t[|l| + 1..] == more;
  }

  /** A non-blank line, with or without a CR before its `\n`. */
  lemma LineStep(st: FrameState, line: bytes, cr: bytes, more: bytes)
    requires line != [] && !HasByte(line, '\n')
    requires cr == "\r" || (cr == [] && line[|line| - 1] != '\r')
    ensures FrameFrom(st, line + cr + "\n" + more) == FrameFrom(FrameLine(st, line), more)
  {
    var l := line + cr;
    assert !HasByte(l, '\n') by {
      assert forall k | 0 <= k < |l| :: l[k] == if k < |line| then line[k] else '\r';
    }
    assert Sse.StripCr(l) == line by {
      if cr == "\r" {
        assert l[..|l| - 1] == line;
      } else {
        assert l == line;
      }
    }
    FrameFromStep(st, l, more);
  }

  /** A non-blank line ended by a bare `\n`. */
  lemma LineStepLf(st: FrameState, line: bytes, more: bytes)
    requires line != [] && !HasByte(line, '\n') && line[|line| - 1] != '\r'
    ensures FrameFrom(st, line + "\n" + more) == FrameFrom(FrameLine(st, line), more)
  {
    LineStep(st, line, [], more);
    assert line + [] == line;
  }

  /** What each kind of field line sets. */
  lemma DataLineSets(st: FrameState, v: bytes)
    ensures var w := Sse.StripOneSpace(v);
      FrameLine(st, Sse.DATA_FIELD + v) == st.(data := if st.hasData then st.data + "\n" + w else st.data + w, hasData := true)
  {
    var line := Sse.DATA_FIELD + v;
    assert line[0] == 'd' && StartsWith(line, Sse.DATA_FIELD) && line[5..] == v;
  }

  lemma EventLineSets(st: FrameState, v: bytes)
    ensures FrameLine(st, Sse.EVENT_FIELD + v) == st.(event := Some(Sse.StripOneSpace(v)))
  {
    var line := Sse.EVENT_FIELD + v;
    assert line[0] == 'e' && line[..5] != Sse.DATA_FIELD;
    assert StartsWith(line, Sse.EVENT_FIELD) && line[6..] == v;
  }

  lemma IdLineSets(st: FrameState, v: bytes)
    ensures FrameLine(st, Sse.ID_FIELD + v) == st.(id := Some(Sse.StripOneSpace(v)))
  {
    var line := Sse.ID_FIELD + v;
    assert line[0] == 'i' && line[1] == 'd';
    assert !StartsWith(line, Sse.DATA_FIELD) && !StartsWith(line, Sse.EVENT_FIELD);
    assert StartsWith(line, Sse.ID_FIELD) && line[3..] == v;
  }

  lemma RetryLineSets(st: FrameState, v: bytes)
    ensures FrameLine(st, RETRY_FIELD + v) == st.(retry := Util.ParseU64(Trim(Sse.StripOneSpace(v))))
  {
    var line := RETRY_FIELD + v;
    assert line[0] == 'r' && line[1] == 'e';
    assert !StartsWith(line, Sse.DATA_FIELD) && !StartsWith(line, Sse.EVENT_FIELD) && !StartsWith(line, Sse.ID_FIELD);
    assert StartsWith(line, RETRY_FIELD) && line[6..] == v;
  }

  /** A text split at one of its `\n`s. */
  lemma SplitAtNewline(s: bytes, i: nat)
    requires i < |s| && s[i] == '\n'
    ensures s == s[..i] + "\n" + s[i + 1..]
  {
    assert s == s[..i] + s[i..i + 1] + s[i + 1..];
  }

  /** A text that starts with `p` is `p` and the rest. */
  lemma SplitPrefix(s: bytes, p: bytes)
    requires StartsWith(s, p)
    ensures s == p + s[|p|..]
  {
    assert s == s[..|p|] + s[|p|..];
  }

  /** A frame's last line and its terminator: the line keeps the terminator's
      CR when the terminator is `\r\n\r\n`. */
  lemma SplitTerminator(s: bytes, n: nat, crlf: bool)
    requires n <= |s| && s[n..] == if crlf then CRLF_CRLF else LF_LF
    ensures s == (if crlf then s[..n] + "\r" else s[..n]) + "\n" + (if crlf then "\r\n" else "\n")
  {
    assert s == s[..n] + s[n..];
    if crlf {
      assert CRLF_CRLF == "\r" + "\n" + "\r\n";
    } else {
      assert LF_LF == [] + "\n" + "\n";
    }
  }

  /** After data, a blank line returns the event. */
  lemma BlankAfterLf(st: FrameState)
    requires st.hasData
    ensures FrameFrom(st, "\n") == Some(Emit(st))
  {
    BlankAfterData(st, "\n");
  }

  /** After data, the terminator's blank line returns the event. */
  lemma BlankAfterData(st: FrameState, more: bytes)
    requires st.hasData && (more == "\n" || more == "\r\n")
    ensures FrameFrom(st, more) == Some(Emit(st))
  {
    if more == "\n" {
      assert !HasByte([], '\n');
      FrameFromStep(st, [], []);
      assert [] + "\n" + [] == more;
    } else {
      assert !HasByte("\r", '\n');
      FrameFromStep(st, "\r", []);
      assert "\r" + "\n" + [] == more;
    }
  }

  // ---------------------------------------------------------------------
  // The fast paths

  const LF_LF: bytes := "\n\n"
  const CRLF_CRLF: bytes := "\r\n\r\n"

  /** `frame_payload_end`: where the payload stops, before a final
      `\r\n\r\n` or `\n\n`. */
  function FramePayloadEnd(raw: bytes): (r: Option<nat>)
    ensures r.None? <==> !EndsWith(raw, CRLF_CRLF) && !EndsWith(raw, LF_LF)
    ensures r.Some? ==> r.value <= |raw|
    ensures r.Some? && EndsWith(raw, CRLF_CRLF) ==> r.value == |raw| - 4
    ensures r.Some? && !EndsWith(raw, CRLF_CRLF) ==> r.value == |raw| - 2
  {
    if EndsWith(raw, CRLF_CRLF) then Some(|raw| - 4)
    else if EndsWith(raw, LF_LF) then Some(|raw| - 2)
    else None
  }

  /** `try_parse_data_only_sse_frame`: a frame that is one `data:` line and
      its terminator, whose value (after one optional space) holds no CR or
      LF. */
  function TryParseDataOnly(raw: bytes): (r: Option<SseEvent>)
    ensures r.Some? ==> StartsWith(raw, Sse.DATA_FIELD) && FramePayloadEnd(raw).Some?
    ensures r.Some? ==> r.value.event.None? && r.value.id.None? && r.value.retry.None?
    ensures r.Some? ==> !HasByte(r.value.data, '\n') && !HasByte(r.value.data, '\r')
  {
    if !StartsWith(raw, Sse.DATA_FIELD) then None
    else match FramePayloadEnd(raw)
      case None => None
      case Some(end) =>
        if end < 5 then None
        else
          var start := if |raw| > 5 && raw[5] == ' ' then 6 else 5;
          if start > end then None
          else
            var d := raw[start..end];
            if HasByte(d, '\n') || HasByte(d, '\r') then None
            else Some(Sse.SseEvent(None, d, None, None))
  }

  /** `try_parse_event_and_data_sse_frame`: a frame that is an `event:` line,
      then one `data:` line, then its terminator. The data line loses one
      trailing `\r` when `stripAfterCrlf` holds or the frame ends in
      `\n\n`. */
  function EventAndData(raw: bytes, stripAfterCrlf: bool): (r: Option<SseEvent>)
    ensures r.Some? ==> StartsWith(raw, Sse.EVENT_FIELD) && FramePayloadEnd(raw).Some?
    ensures r.Some? ==> r.value.event.Some? && r.value.id.None? && r.value.retry.None?
  {
    match EventAndDataSplit(raw)
    case None => None
    case Some(f) => EventAndDataLines(f.eventLine, f.dataLine, stripAfterCrlf || !f.crlf)
  }

  /** The two lines of an event-and-data frame, and whether it ends in
      `\r\n\r\n`. */
  datatype FrameLines = FrameLines(eventLine: bytes, dataLine: bytes, crlf: bool)

  /** The frame checks of the event-and-data fast path: an `event:` start, a
      terminator, and a first `\n` before the terminator with text between. */
  function EventAndDataSplit(raw: bytes): (r: Option<FrameLines>)
    ensures r.Some? ==> StartsWith(raw, Sse.EVENT_FIELD) && FramePayloadEnd(raw).Some?
    ensures r.Some? ==> r.value.crlf == EndsWith(raw, CRLF_CRLF)
    ensures r.Some? && r.value.crlf ==>
      (0 < |r.value.dataLine| < |raw| - 4 && r.value.dataLine == raw[|raw| - 4 - |r.value.dataLine|..|raw| - 4])
  {
    if !StartsWith(raw, Sse.EVENT_FIELD) then None
    else match FramePayloadEnd(raw)
      case None => None
      case Some(end) =>
        match FindByte(raw, '\n', 0)
        case None => None
        case Some(first) =>
          if first + 1 >= end then None
          else Some(FrameLines(raw[..first], raw[first + 1..end], EndsWith(raw, CRLF_CRLF)))
  }

  /** The two lines of the event-and-data fast path: the event line loses a
      trailing `\r`; the data line loses one when `stripData` holds. */
  function EventAndDataLines(e0: bytes, d0: bytes, stripData: bool): (r: Option<SseEvent>)
    ensures r.Some? ==> !HasByte(d0, '\n') && StartsWith(Sse.StripCr(e0), Sse.EVENT_FIELD)
    ensures r.Some? ==> StartsWith(if stripData then Sse.StripCr(d0) else d0, Sse.DATA_FIELD)
  {
    var eventLine := Sse.StripCr(e0);
    if !StartsWith(eventLine, Sse.EVENT_FIELD) then None
    else if HasByte(d0, '\n') then None
    else
      var dataLine := if stripData then Sse.StripCr(d0) else d0;
      if !StartsWith(dataLine, Sse.DATA_FIELD) then None
      else Some(Sse.SseEvent(Some(Sse.StripOneSpace(eventLine[6..])), Sse.StripOneSpace(dataLine[5..]), None, None))
  }

  /** The event-and-data fast path as written: the data line loses a
      trailing `\r` even when the frame ends in `\r\n\r\n`, whose first CR
      already ended that line. */
  function TryParseEventAndDataAsWritten(raw: bytes): (r: Option<SseEvent>)
    ensures r.Some? ==> StartsWith(raw, Sse.EVENT_FIELD) && r.value.event.Some?
  {
    EventAndData(raw, true)
  }

  /** The event-and-data fast path, stripping the data line's CR only where
      the general parser does. */
  function TryParseEventAndData(raw: bytes): (r: Option<SseEvent>)
    ensures r.Some? ==> StartsWith(raw, Sse.EVENT_FIELD) && r.value.event.Some?
  {
    EventAndData(raw, false)
  }

  /** `parse_sse_frame_bytes` as written: the data-only fast path, then the
      event-and-data fast path as written, then the general loop. */
  function ParseSseFrame(raw: bytes): Option<SseEvent> {
    var fast := TryParseDataOnly(raw);
    if fast.Some? then fast
    else
      var fast2 := TryParseEventAndDataAsWritten(raw);
      if fast2.Some? then fast2 else FrameFrom(START, raw)
  }

  /** `parse_sse_frame_bytes` with the corrected event-and-data fast path. */
  function ParseSseFrameIntended(raw: bytes): Option<SseEvent> {
    var fast := TryParseDataOnly(raw);
    if fast.Some? then fast
    else
      var fast2 := TryParseEventAndData(raw);
      if fast2.Some? then fast2 else FrameFrom(START, raw)
  }

  /** The only frames on which the two event-and-data fast paths can
      differ: a data line ending in a CR, then the `\r\n\r\n` terminator. */
  const CR_CRLF_CRLF: bytes := "\r\r\n\r\n"

  /** `parse_sse_frame_bytes`, with the loop over lines and the fields as
      variables: the line loop's answer, except on a frame ending in
      `\r\r\n\r\n` that the event-and-data fast path reads. */
  method ParseSseFrameBytes(raw: bytes) returns (r: Option<SseEvent>)
    ensures r == ParseSseFrame(raw)
    ensures !EndsWith(raw, CR_CRLF_CRLF) ==> r == FrameFrom(START, raw)
    ensures r != FrameFrom(START, raw) ==> StartsWith(raw, Sse.EVENT_FIELD) && EndsWith(raw, CR_CRLF_CRLF)
  {
    r := TryParseDataOnly(raw);
    if r.Some? {
      DataOnlyAgrees(raw);
      return;
    }
    r := TryParseEventAndDataAsWritten(raw);
    if r.Some? {
      ParseSseFrameIsGeneral(raw);
      return;
    }
    // The general loop: the five fields the source keeps in local
    // variables are held in one `FrameState`, the text from `line_start`
    // on in `rest`.
    var st := START;
    var rest := raw;
    while true
      invariant FrameFrom(st, rest) == FrameFrom(START, raw)
      decreases |rest|
    {
      var found := FindByte(rest, '\n', 0);
      if found.None? {
        return None;
      }
      var lineEnd := found.value;
      var line := rest[..lineEnd];
      if |line| > 0 && line[|line| - 1] == '\r' {
        line := line[..|line| - 1];
      }
      assert line == Sse.StripCr(rest[..lineEnd]);
      if line == [] {
        if st.hasData {
          return Some(Sse.SseEvent(st.event, st.data, st.id, st.retry));
        }
      } else {
        st := ProcessFrameLine(st, line);
      }
      rest := rest[lineEnd + 1..];
    }
  }

  /** One non-blank line of the loop: a comment is skipped, a known field
      updates its variable. */
  method ProcessFrameLine(st: FrameState, line: bytes) returns (st': FrameState)
    requires line != []
    ensures st' == FrameLine(st, line)
  {
    st' := st;
    if line[0] == ':' {
      return;
    }
    if StartsWith(line, Sse.DATA_FIELD) {
      var value := Sse.StripOneSpace(line[5..]);
      if st'.hasData {
        st' := st'.(data := st'.data + "\n");
      } else {
        st' := st'.(hasData := true);
      }
      st' := st'.(data := st'.data + value);
    } else if StartsWith(line, Sse.EVENT_FIELD) {
      st' := st'.(event := Some(Sse.StripOneSpace(line[6..])));
    } else if StartsWith(line, Sse.ID_FIELD) {
      st' := st'.(id := Some(Sse.StripOneSpace(line[3..])));
    } else if StartsWith(line, RETRY_FIELD) {
      st' := st'.(retry := Util.ParseU64(Trim(Sse.StripOneSpace(line[6..]))));
    }
  }

  // ---------------------------------------------------------------------
  // The fast paths are shortcuts

  /** Where an accepted data-only frame's value lies: from `start` (after
      `data:` and one optional space) to `end`, where its terminator starts. */
  lemma DataOnlyParts(raw: bytes) returns (start: nat, end: nat, crlf: bool)
    requires TryParseDataOnly(raw).Some?
    ensures 5 <= start <= 6 && start <= end <= |raw| && raw[..5] == Sse.DATA_FIELD
    ensures start == 6 ==> raw[5] == ' '
    ensures start == 5 ==> |raw| == 5 || raw[5] != ' '
    ensures crlf == EndsWith(raw, CRLF_CRLF)
    ensures raw[end..] == if crlf then CRLF_CRLF else LF_LF
    ensures !HasByte(raw[start..end], '\n') && !HasByte(raw[start..end], '\r')
    ensures TryParseDataOnly(raw) == Some(Sse.SseEvent(None, raw[start..end], None, None))
  {
    end := FramePayloadEnd(raw).value;
    start := if |raw| > 5 && raw[5] == ' ' then 6 else 5;
    crlf := EndsWith(raw, CRLF_CRLF);
  }

  /** The pieces of a data-only frame: the value after `data:`, the CR (if
      any) before the line's `\n`, and the rest of the terminator. */
  lemma DataOnlySplit(raw: bytes, start: nat, end: nat, crlf: bool) returns (v: bytes, cr: bytes, more: bytes)
    requires 5 <= start <= 6 && start <= end <= |raw| && raw[..5] == Sse.DATA_FIELD
    requires start == 6 ==> raw[5] == ' '
    requires start == 5 ==> |raw| == 5 || raw[5] != ' '
    requires raw[end..] == if crlf then CRLF_CRLF else LF_LF
    requires !HasByte(raw[start..end], '\n') && !HasByte(raw[start..end], '\r')
    ensures raw == Sse.DATA_FIELD + v + cr + "\n" + more
    ensures !HasByte(v, '\n') && (v == [] || v[|v| - 1] != '\r')
    ensures cr == "\r" || cr == []
    ensures more == "\n" || more == "\r\n"
    ensures Sse.StripOneSpace(v) == raw[start..end]
  {
    var d := raw[start..end];
    v := raw[5..end];
    cr := if crlf then "\r" else [];
    more := if crlf then "\r\n" else "\n";
    assert v == (if start == 6 then " " + d else d) && (start == 6 || v == [] || v[0] != ' ') by {
      assert v == raw[5..start] + d;
      if start == 5 && |v| > 0 {
        assert v[0] == raw[5];
      }
    }
    OneSpaceValue(v, d, start == 6);
    assert raw == Sse.DATA_FIELD + v + cr + "\n" + more by {
      assert raw[..end] == Sse.DATA_FIELD + v by {
        assert raw[..end] == raw[..5] + raw[5..end];
      }
      SplitTerminator(raw, end, crlf);
    }
  }

  /** A value after one optional space, with no line break in it. */
  lemma OneSpaceValue(v: bytes, d: bytes, space: bool)
    requires v == (if space then " " + d else d) && (space || v == [] || v[0] != ' ')
    requires !HasByte(d, '\n') && !HasByte(d, '\r')
    ensures Sse.StripOneSpace(v) == d && !HasByte(v, '\n') && !HasByte(v, '\r')
  {
    if space {
      assert v[1..] == d;
      assert forall k | 1 <= k < |v| :: v[k] == d[k - 1];
    }
  }

  /** A data-only frame reads the same through the general loop. */
  lemma DataOnlyAgrees(raw: bytes)
    requires TryParseDataOnly(raw).Some?
    ensures FrameFrom(START, raw) == TryParseDataOnly(raw)
  {
    var start, end, crlf := DataOnlyParts(raw);
    var v, cr, more := DataOnlySplit(raw, start, end, crlf);
    var line := Sse.DATA_FIELD + v;
    FieldLineShape(Sse.DATA_FIELD, v);
    LineStep(START, line, cr, more);
    DataLineSets(START, v);
    assert [] + Sse.StripOneSpace(v) == Sse.StripOneSpace(v);
    BlankAfterData(FrameLine(START, line), more);
  }

  /** Where an accepted event-and-data frame's lines end: `first` is its
      first `\n`, `end` where its terminator starts. */
  lemma EventAndDataParts(raw: bytes, strip: bool) returns (first: nat, end: nat, crlf: bool)
    requires EventAndData(raw, strip).Some?
    ensures first < end <= |raw| && raw[first] == '\n' && !HasByte(raw[..first], '\n')
    ensures crlf == EndsWith(raw, CRLF_CRLF)
    ensures raw[end..] == if crlf then CRLF_CRLF else LF_LF
    ensures EventAndData(raw, strip) == EventAndDataLines(raw[..first], raw[first + 1..end], strip || !crlf)
  {
    var f := EventAndDataSplit(raw).value;
    end := FramePayloadEnd(raw).value;
    first := FindByte(raw, '\n', 0).value;
    crlf := f.crlf;
    assert f == FrameLines(raw[..first], raw[first + 1..end], crlf);
    BeforeFirstNewline(raw, first);
    Terminator(raw, end, crlf);
  }

  /** The payload ends where the terminator starts. */
  lemma Terminator(raw: bytes, end: nat, crlf: bool)
    requires FramePayloadEnd(raw) == Some(end) && crlf == EndsWith(raw, CRLF_CRLF)
    ensures raw[end..] == if crlf then CRLF_CRLF else LF_LF
  {
    if crlf {
      assert end == |raw| - |CRLF_CRLF|;
    } else {
      assert EndsWith(raw, LF_LF) && end == |raw| - |LF_LF|;
    }
  }

  /** No `\n` comes before the first one. */
  lemma BeforeFirstNewline(raw: bytes, first: nat)
    requires FindByte(raw, '\n', 0) == Some(first)
    ensures !HasByte(raw[..first], '\n')
  {
    assert forall k | 0 <= k < first :: raw[..first][k] == raw[k];
  }

  /** The data line of an event-and-data frame, with the CR (if any) the
      terminator gives it before its `\n`, and the rest of the terminator. */
  lemma DataLineSplit(raw: bytes, first: nat, end: nat, crlf: bool) returns (l: bytes, more: bytes)
    requires first < end <= |raw| && raw[first] == '\n'
    requires raw[end..] == if crlf then CRLF_CRLF else LF_LF
    requires !HasByte(raw[first + 1..end], '\n')
    ensures raw == raw[..first] + "\n" + (l + "\n" + more)
    ensures !HasByte(l, '\n')
    ensures more == "\n" || more == "\r\n"
    ensures Sse.StripCr(l) == if crlf then raw[first + 1..end] else Sse.StripCr(raw[first + 1..end])
  {
    var d0 := raw[first + 1..end];
    l := if crlf then d0 + "\r" else d0;
    more := if crlf then "\r\n" else "\n";
    assert raw == raw[..first] + "\n" + (l + "\n" + more) by {
      var rest := raw[first + 1..];
      SplitAtNewline(raw, first);
      assert rest[..end - (first + 1)] == d0 && rest[end - (first + 1)..] == raw[end..];
      SplitTerminator(rest, end - (first + 1), crlf);
    }
    assert !HasByte(l, '\n') by {
      assert forall k | 0 <= k < |l| :: l[k] == if k < |d0| then d0[k] else '\r';
    }
    assert Sse.StripCr(l) == if crlf then d0 else Sse.StripCr(d0) by {
      if crlf {
        assert l[..|l| - 1] == d0;
      }
    }
  }

  /** An event-and-data frame, CR stripped only where the general loop
      strips it, reads the same through the general loop. */
  lemma EventAndDataAgrees(raw: bytes)
    requires TryParseEventAndData(raw).Some?
    ensures FrameFrom(START, raw) == TryParseEventAndData(raw)
  {
    var first, end, crlf := EventAndDataParts(raw, false);
    var l, more := DataLineSplit(raw, first, end, crlf);
    var st1 := EventLineFirst(raw[..first], l + "\n" + more);
    DataLineThenBlank(st1, l, more);
  }

  /** An `event:` line first in a frame only sets the event name. */
  lemma EventLineFirst(e0: bytes, rest: bytes) returns (st1: FrameState)
    requires !HasByte(e0, '\n') && StartsWith(Sse.StripCr(e0), Sse.EVENT_FIELD)
    ensures st1 == START.(event := Some(Sse.StripOneSpace(Sse.StripCr(e0)[6..])))
    ensures FrameFrom(START, e0 + "\n" + rest) == FrameFrom(st1, rest)
  {
    FrameFromStep(START, e0, rest);
    var eventLine := Sse.StripCr(e0);
    SplitPrefix(eventLine, Sse.EVENT_FIELD);
    EventLineSets(START, eventLine[6..]);
    st1 := FrameLine(START, eventLine);
  }

  /** A `data:` line followed by a blank line, in a state with no data yet,
      dispatches that state with the line's value as data. */
  lemma DataLineThenBlank(st: FrameState, l: bytes, more: bytes)
    requires !st.hasData && st.data == []
    requires !HasByte(l, '\n') && StartsWith(Sse.StripCr(l), Sse.DATA_FIELD)
    requires more == "\n" || more == "\r\n"
    ensures FrameFrom(st, l + "\n" + more) ==
      Some(Sse.SseEvent(st.event, Sse.StripOneSpace(Sse.StripCr(l)[5..]), st.id, st.retry))
  {
    FrameFromStep(st, l, more);
    var dataLine := Sse.StripCr(l);
    SplitPrefix(dataLine, Sse.DATA_FIELD);
    DataLineSets(st, dataLine[5..]);
    assert [] + Sse.StripOneSpace(dataLine[5..]) == Sse.StripOneSpace(dataLine[5..]);
    BlankAfterData(FrameLine(st, dataLine), more);
  }

  /** With the corrected fast path, the fast paths only shortcut the
      general loop: the whole parser is the general loop. */
  lemma IntendedIsGeneral(raw: bytes)
    ensures ParseSseFrameIntended(raw) == FrameFrom(START, raw)
  {
    if TryParseDataOnly(raw).Some? {
      DataOnlyAgrees(raw);
    } else if TryParseEventAndData(raw).Some? {
      EventAndDataAgrees(raw);
    }
  }

  /** The parser as written is the general loop on every frame except an
      `event:` frame ending in `\r\r\n\r\n`. */
  lemma ParseSseFrameIsGeneral(raw: bytes)
    ensures !EndsWith(raw, CR_CRLF_CRLF) ==> ParseSseFrame(raw) == FrameFrom(START, raw)
    ensures ParseSseFrame(raw) != FrameFrom(START, raw) ==> StartsWith(raw, Sse.EVENT_FIELD) && EndsWith(raw, CR_CRLF_CRLF)
  {
    IntendedIsGeneral(raw);
    if ParseSseFrame(raw) != ParseSseFrameIntended(raw) {
      assert EventAndData(raw, true) != EventAndData(raw, false);
      FastPathsDiffer(raw);
    }
  }

  /** The two event-and-data fast paths differ only on an `event:` frame
      ending in `\r\r\n\r\n`. */
  lemma FastPathsDiffer(raw: bytes)
    requires EventAndData(raw, true) != EventAndData(raw, false)
    ensures StartsWith(raw, Sse.EVENT_FIELD) && EndsWith(raw, CR_CRLF_CRLF)
  {
    var f := EventAndDataSplit(raw).value;
    assert f.crlf;
    LinesDiffer(f.eventLine, f.dataLine);
    CrBeforeTerminator(raw, f.dataLine);
  }

  /** The two data-line treatments differ only on a line ending in a CR. */
  lemma LinesDiffer(e0: bytes, d0: bytes)
    requires EventAndDataLines(e0, d0, true) != EventAndDataLines(e0, d0, false)
    ensures |d0| > 0 && d0[|d0| - 1] == '\r'
  {
  }

  /** A CR just before `\r\n\r\n`. */
  lemma CrBeforeTerminator(raw: bytes, d0: bytes)
    requires EndsWith(raw, CRLF_CRLF) && 0 < |d0| < |raw| - 4
    requires d0 == raw[|raw| - 4 - |d0|..|raw| - 4] && d0[|d0| - 1] == '\r'
    ensures EndsWith(raw, CR_CRLF_CRLF)
  {
    assert raw[|raw| - 5] == '\r';
    assert raw[|raw| - 5..] == [raw[|raw| - 5]] + raw[|raw| - 4..];
  }

  /** The event-and-data fast path on an `event:` line `e0` and a data line
      `d0` ended by `\r\n\r\n`. */
  lemma EventAndDataOn(e0: bytes, d0: bytes, strip: bool)
    requires !HasByte(e0, '\n') && !HasByte(d0, '\n')
    requires StartsWith(Sse.StripCr(e0), Sse.EVENT_FIELD)
    requires StartsWith(if strip then Sse.StripCr(d0) else d0, Sse.DATA_FIELD)
    ensures var dataLine := if strip then Sse.StripCr(d0) else d0;
      EventAndData(e0 + "\n" + d0 + CRLF_CRLF, strip) ==
        Some(Sse.SseEvent(Some(Sse.StripOneSpace(Sse.StripCr(e0)[6..])), Sse.StripOneSpace(dataLine[5..]), None, None))
  {
    var raw := e0 + "\n" + d0 + CRLF_CRLF;
    CrlfFrameShape(e0, d0);
    assert StartsWith(raw, Sse.EVENT_FIELD) by {
      assert raw[..6] == Sse.StripCr(e0)[..6];
    }
    assert |d0| > 0;
  }

  /** Where the lines of `e0`, `\n`, `d0`, `\r\n\r\n` are. */
  lemma CrlfFrameShape(e0: bytes, d0: bytes)
    requires !HasByte(e0, '\n')
    ensures var raw := e0 + "\n" + d0 + CRLF_CRLF;
      && EndsWith(raw, CRLF_CRLF) && FramePayloadEnd(raw) == Some(|raw| - 4)
      && FindByte(raw, '\n', 0) == Some(|e0|)
      && raw[..|e0|] == e0 && raw[|e0| + 1..|raw| - 4] == d0
  {
    var raw := e0 + "\n" + d0 + CRLF_CRLF;
    assert raw == e0 + "\n" + (d0 + CRLF_CRLF);
    FirstNewline(e0, d0 + CRLF_CRLF);
    assert raw[|e0| + 1..] == d0 + CRLF_CRLF;
    assert raw[|e0| + 1..|raw| - 4] == (d0 + CRLF_CRLF)[..|d0|] == d0;
  }

  /** The parser as written reads `y` from a data line `data: y\r` ended
      by `\r\n\r\n`, while the general loop (and the incremental parser)
      read `y\r`. */
  lemma EventAndDataCrlfFinding(x: bytes, y: bytes)
    requires !HasByte(x, '\n') && !HasByte(y, '\n')
    ensures var raw := (Sse.EVENT_FIELD + (" " + x) + "\r") + "\n" + (Sse.DATA_FIELD + (" " + y) + "\r") + CRLF_CRLF;
      && ParseSseFrame(raw) == Some(Sse.SseEvent(Some(x), y, None, None))
      && FrameFrom(START, raw) == Some(Sse.SseEvent(Some(x), y + "\r", None, None))
  {
    var e0, d0 := Sse.EVENT_FIELD + (" " + x) + "\r", Sse.DATA_FIELD + (" " + y) + "\r";
    var raw := e0 + "\n" + d0 + CRLF_CRLF;
    CrLine(Sse.EVENT_FIELD, " " + x);
    CrLine(Sse.DATA_FIELD, " " + y);
    assert Sse.StripOneSpace(" " + x) == x && Sse.StripOneSpace(" " + y) == y;
    EventAndDataOn(e0, d0, true);
    assert raw[0] == 'e';
    AsWrittenEventFrame(raw);
    CrlfFrame(x, y);
  }

  /** A frame that the event-and-data fast path as written reads and that
      does not start with `data:` gets that fast path's answer. */
  lemma AsWrittenEventFrame(raw: bytes)
    requires |raw| > 0 && raw[0] != 'd' && TryParseEventAndDataAsWritten(raw).Some?
    ensures ParseSseFrame(raw) == TryParseEventAndDataAsWritten(raw)
  {
    assert !StartsWith(raw, Sse.DATA_FIELD);
  }

  /** The frame of the finding, read by the corrected parser. */
  lemma CrlfFrame(x: bytes, y: bytes)
    requires !HasByte(x, '\n') && !HasByte(y, '\n')
    ensures var raw := (Sse.EVENT_FIELD + (" " + x) + "\r") + "\n" + (Sse.DATA_FIELD + (" " + y) + "\r") + CRLF_CRLF;
      && ParseSseFrameIntended(raw) == Some(Sse.SseEvent(Some(x), y + "\r", None, None))
      && FrameFrom(START, raw) == ParseSseFrameIntended(raw)
  {
    var e0, d0 := Sse.EVENT_FIELD + (" " + x) + "\r", Sse.DATA_FIELD + (" " + y) + "\r";
    var raw := e0 + "\n" + d0 + CRLF_CRLF;
    CrLine(Sse.EVENT_FIELD, " " + x);
    CrLine(Sse.DATA_FIELD, " " + y);
    assert Sse.StripOneSpace(" " + x) == x;
    assert Sse.StripOneSpace(" " + y + "\r") == y + "\r" by {
      assert (" " + y + "\r")[1..] == y + "\r";
    }
    EventAndDataOn(e0, d0, false);
    assert raw[0] == 'e';
    EventFrameIsGeneral(raw);
  }

  /** A frame that the event-and-data fast path reads and that does not
      start with `data:`. */
  lemma EventFrameIsGeneral(raw: bytes)
    requires |raw| > 0 && raw[0] != 'd' && TryParseEventAndData(raw).Some?
    ensures ParseSseFrameIntended(raw) == TryParseEventAndData(raw) == FrameFrom(START, raw)
  {
    assert !StartsWith(raw, Sse.DATA_FIELD);
    EventAndDataAgrees(raw);
  }

  /** A field line ended by a CR before its `\n`. */
  lemma CrLine(name: bytes, v: bytes)
    requires name == Sse.EVENT_FIELD || name == Sse.DATA_FIELD
    requires !HasByte(v, '\n')
    ensures var l := name + v + "\r";
      !HasByte(l, '\n') && Sse.StripCr(l) == name + v && (name + v)[|name|..] == v && l[|name|..] == v + "\r"
      && StartsWith(name + v, name) && StartsWith(l, name)
  {
    var l := name + v + "\r";
    assert forall k | 0 <= k < |l| :: l[k] == if k < |name| then name[k] else if k < |name| + |v| then v[k - |name|] else '\r';
    assert l[..|l| - 1] == name + v;
  }

  // ---------------------------------------------------------------------
  // Agreement with the incremental parser

  /** The incremental parser's fields for a frame state (it has no retry). */
  function Line(st: FrameState): Sse.LineState {
    Sse.LineState(st.event, st.data, st.hasData, st.id)
  }

  /** A non-blank line changes the shared fields as `process_line` does and
      dispatches nothing. */
  lemma FrameLineAgrees(st: FrameState, line: bytes)
    requires line != []
    ensures Sse.ProcessLine(line, Line(st)) == Sse.LineResult(Line(FrameLine(st, line)), [])
  {
  }

  /** The single-frame parser returns an event exactly when the incremental
      parser, fed the same text, dispatches one, and it is the first event
      dispatched, up to the retry value that only the single-frame parser
      keeps. */
  lemma {:induction false} FrameFromAgrees(st: FrameState, text: bytes)
    ensures var r := Sse.ScanFrom(Line(st), [], text);
      && (FrameFrom(st, text).Some? <==> |r.events| > 0)
      && (FrameFrom(st, text).Some? ==> FrameFrom(st, text).value.(retry := None) == r.events[0])
    decreases |text|
  {
    var r := Sse.ScanFrom(Line(st), [], text);
    match FindByte(text, '\n', 0)
    case None =>
      assert !HasByte(text, '\n');
      Sse.ScanFromRest(Line(st), [], text);
    case Some(nl) =>
      var l, more := text[..nl], text[nl + 1..];
      assert text == l + "\n" + more;
      assert !HasByte(l, '\n');
      Sse.ScanLine(Line(st), l, more);
      FrameFromStep(st, l, more);
      var line := Sse.StripCr(l);
      var p := Sse.ProcessLine(line, Line(st));
      if line == [] {
        if !st.hasData {
          FrameFromAgrees(st, more);
          assert p == Sse.LineResult(Line(st), []);
        }
      } else {
        FrameLineAgrees(st, line);
        FrameFromAgrees(FrameLine(st, line), more);
      }
  }

  /** The corrected parser returns the first event a fresh incremental
      parser dispatches on the same text, and returns None exactly when it
      dispatches none. */
  lemma IntendedIsFirstEvent(raw: bytes)
    ensures var r := Sse.ScanFrom(Sse.FRESH, [], raw);
      && (ParseSseFrameIntended(raw).Some? <==> |r.events| > 0)
      && (ParseSseFrameIntended(raw).Some? ==> ParseSseFrameIntended(raw).value.(retry := None) == r.events[0])
  {
    IntendedIsGeneral(raw);
    FrameFromAgrees(START, raw);
  }

  /** `parse_sse_frame_bytes` as written returns the first event a fresh
      incremental parser dispatches on the same text, and None exactly when
      it dispatches none, on every frame that does not end in
      `\r\r\n\r\n`. */
  lemma ParseSseFrameIsFirstEvent(raw: bytes)
    requires !EndsWith(raw, CR_CRLF_CRLF)
    ensures var r := Sse.ScanFrom(Sse.FRESH, [], raw);
      && (ParseSseFrame(raw).Some? <==> |r.events| > 0)
      && (ParseSseFrame(raw).Some? ==> ParseSseFrame(raw).value.(retry := None) == r.events[0])
  {
    ParseSseFrameIsGeneral(raw);
    FrameFromAgrees(START, raw);
  }

  /** A frame is only returned once a blank line ends it: text with no
      blank line gives None. */
  lemma {:induction false} NoBlankLineNoFrame(st: FrameState, text: bytes)
    requires forall k | 0 <= k < |text| && text[k] == '\n' :: !BlankLineEndsAt(text, k)
    ensures FrameFrom(st, text) == None
    decreases |text|
  {
    match FindByte(text, '\n', 0)
    case None =>
    case Some(nl) =>
      var l, more := text[..nl], text[nl + 1..];
      assert text == l + "\n" + more;
      FrameFromStep(st, l, more);
      BlankLineShape(text, nl);
      forall k | 0 <= k < |more| && more[k] == '\n'
        ensures !BlankLineEndsAt(more, k)
      {
        assert text[nl + 1 + k] == '\n';
        assert !BlankLineEndsAt(text, nl + 1 + k);
      }
      NoBlankLineNoFrame(FrameLine(st, Sse.StripCr(l)), more);
  }

  /** A line ended by a `\n` that is not a blank line keeps bytes once its
      CR is dropped. */
  lemma BlankLineShape(text: bytes, nl: nat)
    requires nl < |text| && text[nl] == '\n' && !BlankLineEndsAt(text, nl)
    ensures Sse.StripCr(text[..nl]) != []
  {
    var l := text[..nl];
    assert |l| >= 1;
    if |l| == 1 {
      assert l[0] == text[nl - 1];
    }
  }

  /** The `\n` at `k` ends a line that is empty once a CR is dropped. */
  predicate BlankLineEndsAt(text: bytes, k: nat)
    requires k < |text|
  {
    k == 0 || text[k - 1] == '\n' || (text[k - 1] == '\r' && (k == 1 || text[k - 2] == '\n'))
  }

  /** Text that no `\n` ends (a `data:` line still open) gives None. */
  lemma UnterminatedFrame(raw: bytes)
    requires !HasByte(raw, '\n')
    ensures ParseSseFrame(raw) == None
  {
    assert !EndsWith(raw, CR_CRLF_CRLF) by {
      if |raw| >= 5 {
        assert raw[|raw| - 1] == raw[|raw| - 5..][4];
      }
    }
    ParseSseFrameIsGeneral(raw);
  }

  /** Two data lines are joined with `\n`. */
  lemma MultilineData(a: bytes, b: bytes)
    requires !HasByte(a, '\n') && !HasByte(a, '\r') && !HasByte(b, '\n') && !HasByte(b, '\r')
    ensures ParseSseFrame(Sse.DATA_FIELD + (" " + a) + "\n" + (Sse.DATA_FIELD + (" " + b) + LF_LF)) ==
      Some(Sse.SseEvent(None, a + "\n" + b, None, None))
  {
    var lb := Sse.DATA_FIELD + (" " + b);
    MultilineLoop(a, b);
    EndsInLfLf(Sse.DATA_FIELD + (" " + a) + "\n", lb);
    ParseSseFrameIsGeneral(Sse.DATA_FIELD + (" " + a) + "\n" + (lb + LF_LF));
  }

  /** A frame ending in `\n\n` is read by the parser as written as by the
      general loop. */
  lemma EndsInLfLf(a: bytes, b: bytes)
    ensures !EndsWith(a + (b + LF_LF), CR_CRLF_CRLF)
  {
    var s := a + (b + LF_LF);
    if |s| >= 5 {
      assert s[|s| - 2] == '\n' && s[|s| - 5..][3] == s[|s| - 2];
    }
  }

  lemma MultilineLoop(a: bytes, b: bytes)
    requires !HasByte(a, '\n') && !HasByte(a, '\r') && !HasByte(b, '\n') && !HasByte(b, '\r')
    ensures FrameFrom(START, Sse.DATA_FIELD + (" " + a) + "\n" + (Sse.DATA_FIELD + (" " + b) + LF_LF)) ==
      Some(Sse.SseEvent(None, a + "\n" + b, None, None))
  {
    var lb := Sse.DATA_FIELD + (" " + b);
    assert LF_LF == "\n" + "\n";
    assert lb + LF_LF == lb + "\n" + "\n";
    DataStep(START, a, lb + LF_LF);
    assert [] + a == a;
    var st1 := START.(data := a, hasData := true);
    DataStep(st1, b, "\n");
    BlankAfterLf(st1.(data := a + "\n" + b));
  }

  /** A field line whose value has no line break is one line that does not
      end in a CR. */
  lemma FieldLineShape(name: bytes, v: bytes)
    requires name == Sse.DATA_FIELD || name == Sse.EVENT_FIELD || name == Sse.ID_FIELD || name == RETRY_FIELD
    requires !HasByte(v, '\n') && (v == [] || v[|v| - 1] != '\r')
    ensures name + v != [] && !HasByte(name + v, '\n') && (name + v)[|name + v| - 1] != '\r'
  {
    var line := name + v;
    assert forall k | 0 <= k < |line| :: line[k] == if k < |name| then name[k] else v[k - |name|];
  }

  /** A named event with an id, a retry and data: each field is captured. */
  lemma NamedFrame(ev: bytes, id: bytes, n: u64, d: bytes)
    requires !HasByte(ev, '\n') && !HasByte(ev, '\r') && !HasByte(id, '\n') && !HasByte(id, '\r')
    requires !HasByte(d, '\n') && !HasByte(d, '\r')
    ensures var raw := Sse.EVENT_FIELD + (" " + ev) + "\n" + (Sse.ID_FIELD + (" " + id)) + "\n"
        + (RETRY_FIELD + (" " + Util.Decimal(n))) + "\n" + (Sse.DATA_FIELD + (" " + d)) + LF_LF;
      ParseSseFrame(raw) == Some(Sse.SseEvent(Some(ev), d, Some(id), Some(n)))
  {
    var head := Sse.EVENT_FIELD + (" " + ev) + "\n" + (Sse.ID_FIELD + (" " + id)) + "\n"
      + (RETRY_FIELD + (" " + Util.Decimal(n))) + "\n";
    var raw := head + (Sse.DATA_FIELD + (" " + d)) + LF_LF;
    NamedLoop(ev, id, n, d);
    EndsInLfLf(head, Sse.DATA_FIELD + (" " + d));
    assert raw == head + (Sse.DATA_FIELD + (" " + d) + LF_LF);
    ParseSseFrameIsGeneral(raw);
  }

  lemma NamedLoop(ev: bytes, id: bytes, n: u64, d: bytes)
    requires !HasByte(ev, '\n') && !HasByte(ev, '\r') && !HasByte(id, '\n') && !HasByte(id, '\r')
    requires !HasByte(d, '\n') && !HasByte(d, '\r')
    ensures var raw := Sse.EVENT_FIELD + (" " + ev) + "\n" + (Sse.ID_FIELD + (" " + id)) + "\n"
        + (RETRY_FIELD + (" " + Util.Decimal(n))) + "\n" + (Sse.DATA_FIELD + (" " + d)) + LF_LF;
      FrameFrom(START, raw) == Some(Sse.SseEvent(Some(ev), d, Some(id), Some(n)))
  {
    var dn := Util.Decimal(n);
    var l1, l2 := Sse.EVENT_FIELD + (" " + ev), Sse.ID_FIELD + (" " + id);
    var l3, l4 := RETRY_FIELD + (" " + dn), Sse.DATA_FIELD + (" " + d);
    var m3 := l4 + "\n" + "\n";
    var m2 := l3 + "\n" + m3;
    var m1 := l2 + "\n" + m2;
    FourLines(l1, l2, l3, l4);
    var st1 := START.(event := Some(ev));
    var st2 := st1.(id := Some(id));
    var st3 := st2.(retry := Some(n));
    EventStep(START, ev, m1);
    IdStep(st1, id, m2);
    RetryStep(st2, n, m3);
    DataStep(st3, d, "\n");
    assert [] + d == d;
    BlankAfterLf(st3.(data := d, hasData := true));
  }

  /** An `event: ev` line names the event. */
  lemma EventStep(st: FrameState, ev: bytes, more: bytes)
    requires !HasByte(ev, '\n') && !HasByte(ev, '\r')
    ensures FrameFrom(st, Sse.EVENT_FIELD + (" " + ev) + "\n" + more) == FrameFrom(st.(event := Some(ev)), more)
  {
    FieldLineShape(Sse.EVENT_FIELD, " " + ev);
    LineStepLf(st, Sse.EVENT_FIELD + (" " + ev), more);
    EventLineSets(st, " " + ev);
    assert Sse.StripOneSpace(" " + ev) == ev;
  }

  /** An `id: id` line sets the id. */
  lemma IdStep(st: FrameState, id: bytes, more: bytes)
    requires !HasByte(id, '\n') && !HasByte(id, '\r')
    ensures FrameFrom(st, Sse.ID_FIELD + (" " + id) + "\n" + more) == FrameFrom(st.(id := Some(id)), more)
  {
    FieldLineShape(Sse.ID_FIELD, " " + id);
    LineStepLf(st, Sse.ID_FIELD + (" " + id), more);
    IdLineSets(st, " " + id);
    assert Sse.StripOneSpace(" " + id) == id;
  }

  /** A `retry: n` line, `n` written in decimal, sets the retry to `n`. */
  lemma RetryStep(st: FrameState, n: u64, more: bytes)
    ensures FrameFrom(st, RETRY_FIELD + (" " + Util.Decimal(n)) + "\n" + more) == FrameFrom(st.(retry := Some(n)), more)
  {
    var dn := Util.Decimal(n);
    RetryValue(n);
    FieldLineShape(RETRY_FIELD, " " + dn);
    LineStepLf(st, RETRY_FIELD + (" " + dn), more);
    RetryLineSets(st, " " + dn);
    assert Sse.StripOneSpace(" " + dn) == dn;
  }

  /** A `data: d` line appends `d` to the data. */
  lemma DataStep(st: FrameState, d: bytes, more: bytes)
    requires !HasByte(d, '\n') && !HasByte(d, '\r')
    ensures FrameFrom(st, Sse.DATA_FIELD + (" " + d) + "\n" + more) ==
      FrameFrom(st.(data := if st.hasData then st.data + "\n" + d else st.data + d, hasData := true), more)
  {
    FieldLineShape(Sse.DATA_FIELD, " " + d);
    LineStepLf(st, Sse.DATA_FIELD + (" " + d), more);
    DataLineSets(st, " " + d);
    assert Sse.StripOneSpace(" " + d) == d;
  }

  lemma FourLines(l1: bytes, l2: bytes, l3: bytes, l4: bytes)
    ensures l1 + "\n" + l2 + "\n" + l3 + "\n" + l4 + LF_LF == l1 + "\n" + (l2 + "\n" + (l3 + "\n" + (l4 + "\n" + "\n")))
  {
    assert LF_LF == "\n" + "\n";
  }

  /** A `retry:` line carrying the decimal text of `n`: one line, whose
      trimmed value parses back to `n`. */
  lemma RetryValue(n: u64)
    ensures var v := " " + Util.Decimal(n);
      !HasByte(v, '\n') && v[|v| - 1] != '\r' && Util.ParseU64(Trim(Util.Decimal(n))) == Some(n)
  {
    var dn := Util.Decimal(n);
    var v := " " + dn;
    assert Util.AllDigits(dn) && |dn| >= 1 by {
      Util.DecimalRoundTrip(n);
    }
    assert !HasByte(v, '\n') && v[|v| - 1] != '\r' by {
      assert forall k | 0 <= k < |v| :: v[k] == ' ' || IsDigit(v[k]) by {
        forall k | 0 <= k < |v| ensures v[k] == ' ' || IsDigit(v[k]) {
          if k > 0 {
            assert v[k] == dn[k - 1];
          }
        }
      }
    }
    assert Trim(dn) == dn by {
      assert !IsTrimWs(dn[0]) && !IsTrimWs(dn[|dn| - 1]);
      Util.TrimPlain(dn);
    }
    Util.ParseU64Decimal(n);
  }

  // ---------------------------------------------------------------------
  // Encoding canonical events

  /** The JSON payload `encode_sse_event` writes for the events it can
      encode without provider context. */
  function CanonicalPayload(e: Canonical.StreamEvent): Option<bytes> {
    match e
    case Done => Some("[DONE]")
    case ErrorEvent(status, message) =>
      Some("{\"error\":{\"status\":" + Util.Decimal(status) + ",\"message\":" + Util.JsonQuoted(message) + "}}")
    case TextDelta(text) => Some("{\"delta\":{\"text\":" + Util.JsonQuoted(text) + "}}")
    case ToolResultEvent(toolCallId, content) =>
      Some("{\"delta\":{\"tool_result\":{\"tool_call_id\":" + Util.JsonQuoted(toolCallId) + ",\"content\":" + Util.JsonQuoted(content) + "}}}")
    case _ => None
  }

  /** `encode_sse_event` (generic, in `mod.rs`): `Done`, `Error`, `TextDelta`
      and `ToolResult` become one `data:` frame; every other event is a
      translation error. */
  function EncodeCanonicalEvent(e: Canonical.StreamEvent): (r: Result<bytes, Errors.CanonicalError>)
    ensures r.Ok? <==> e.Done? || e.ErrorEvent? || e.TextDelta? || e.ToolResultEvent?
    ensures r.Err? ==> r.error.Translation?
    ensures r.Ok? ==> StartsWith(r.value, "data: ") && EndsWith(r.value, "\n\n")
  {
    match CanonicalPayload(e)
    case Some(p) => Ok(Sse.OpenAiSseFrame(p))
    case None => Err(Errors.Translation("cannot encode canonical event as generic SSE without provider context"))
  }

  /** `Done` is the `[DONE]` sentinel frame. */
  lemma DoneEncodesSentinel()
    ensures EncodeCanonicalEvent(Canonical.Done) == Ok(Sse.DONE_FRAME)
  {
    assert Sse.OpenAiSseFrame("[DONE]") == "data: " + "[DONE]" + "\n\n";
    assert "data: " + "[DONE]" + "\n\n" == Sse.DONE_FRAME;
  }

  /** JSON escaping never writes a raw line break. */
  lemma {:induction false} EscapeBodyOneLine(s: bytes)
    ensures !HasByte(Util.EscapeBody(s), '\n') && !HasByte(Util.EscapeBody(s), '\r')
    decreases |s|
  {
    if |s| > 0 {
      EscapeBodyOneLine(s[1..]);
      Util.EscapeBodyCons(s[0], s[1..]);
      assert [s[0]] + s[1..] == s;
      var e := Util.EscapeByte(s[0]);
      assert !HasByte(e, '\n') && !HasByte(e, '\r');
      NoBreakConcat(e, Util.EscapeBody(s[1..]));
    }
  }

  lemma NoBreakConcat(a: bytes, b: bytes)
    requires !HasByte(a, '\n') && !HasByte(a, '\r') && !HasByte(b, '\n') && !HasByte(b, '\r')
    ensures !HasByte(a + b, '\n') && !HasByte(a + b, '\r')
  {
    assert forall k | 0 <= k < |a + b| :: (a + b)[k] == if k < |a| then a[k] else b[k - |a|];
  }

  lemma QuotedOneLine(s: bytes)
    ensures !HasByte(Util.JsonQuoted(s), '\n') && !HasByte(Util.JsonQuoted(s), '\r')
  {
    EscapeBodyOneLine(s);
    NoBreakConcat("\"", Util.EscapeBody(s));
    NoBreakConcat("\"" + Util.EscapeBody(s), "\"");
  }

  lemma DecimalOneLine(n: nat)
    ensures !HasByte(Util.Decimal(n), '\n') && !HasByte(Util.Decimal(n), '\r')
  {
    Util.DigitsFacts(n);
    if n > 0 {
      assert forall k | 0 <= k < |Util.Decimal(n)| :: IsDigit(Util.Decimal(n)[k]);
    }
  }

  /** The payload is one line. */
  lemma PayloadOneLine(e: Canonical.StreamEvent)
    requires CanonicalPayload(e).Some?
    ensures !HasByte(CanonicalPayload(e).value, '\n') && !HasByte(CanonicalPayload(e).value, '\r')
  {
    match e
    case Done =>
      assert forall k | 0 <= k < 6 :: "[DONE]"[k] != '\n' && "[DONE]"[k] != '\r';
    case ErrorEvent(_, _) => ErrorPayloadOneLine(e);
    case TextDelta(_) => TextPayloadOneLine(e);
    case ToolResultEvent(_, _) => ToolResultPayloadOneLine(e);
  }

  lemma ErrorPayloadOneLine(e: Canonical.StreamEvent)
    requires e.ErrorEvent?
    ensures CanonicalPayload(e).Some?
    ensures !HasByte(CanonicalPayload(e).value, '\n') && !HasByte(CanonicalPayload(e).value, '\r')
  {
    var a := "{\"error\":{\"status\":";
    var b := ",\"message\":";
    var d, q := Util.Decimal(e.status), Util.JsonQuoted(e.message);
    DecimalOneLine(e.status);
    QuotedOneLine(e.message);
    assert forall k | 0 <= k < |a| :: a[k] != '\n' && a[k] != '\r';
    assert forall k | 0 <= k < |b| :: b[k] != '\n' && b[k] != '\r';
    NoBreakConcat(a, d);
    NoBreakConcat(a + d, b);
    NoBreakConcat(a + d + b, q);
    NoBreakConcat(a + d + b + q, "}}");
  }

  lemma TextPayloadOneLine(e: Canonical.StreamEvent)
    requires e.TextDelta?
    ensures CanonicalPayload(e).Some?
    ensures !HasByte(CanonicalPayload(e).value, '\n') && !HasByte(CanonicalPayload(e).value, '\r')
  {
    var a := "{\"delta\":{\"text\":";
    var q := Util.JsonQuoted(e.text);
    QuotedOneLine(e.text);
    assert forall k | 0 <= k < |a| :: a[k] != '\n' && a[k] != '\r';
    NoBreakConcat(a, q);
    NoBreakConcat(a + q, "}}");
  }

  lemma ToolResultPayloadOneLine(e: Canonical.StreamEvent)
    requires e.ToolResultEvent?
    ensures CanonicalPayload(e).Some?
    ensures !HasByte(CanonicalPayload(e).value, '\n') && !HasByte(CanonicalPayload(e).value, '\r')
  {
    var a := "{\"delta\":{\"tool_result\":{\"tool_call_id\":";
    var b := ",\"content\":";
    var q1, q2 := Util.JsonQuoted(e.toolCallId), Util.JsonQuoted(e.content);
    QuotedOneLine(e.toolCallId);
    QuotedOneLine(e.content);
    assert forall k | 0 <= k < |a| :: a[k] != '\n' && a[k] != '\r';
    assert forall k | 0 <= k < |b| :: b[k] != '\n' && b[k] != '\r';
    NoBreakConcat(a, q1);
    NoBreakConcat(a + q1, b);
    NoBreakConcat(a + q1 + b, q2);
    NoBreakConcat(a + q1 + b + q2, "}}}");
  }

  /** What `encode_sse_event` writes parses back, through the data-only
      fast path, to an unnamed event carrying the JSON payload. */
  lemma EncodeCanonicalParses(e: Canonical.StreamEvent)
    requires EncodeCanonicalEvent(e).Ok?
    ensures ParseSseFrame(EncodeCanonicalEvent(e).value) == Some(Sse.SseEvent(None, CanonicalPayload(e).value, None, None))
  {
    var p := CanonicalPayload(e).value;
    PayloadOneLine(e);
    DataOnlyOn(p);
  }

  /** One `data: ` line holding `p`, then a blank line, is read by the
      data-only fast path. */
  lemma DataOnlyOn(p: bytes)
    requires !HasByte(p, '\n') && !HasByte(p, '\r')
    ensures TryParseDataOnly(Sse.OpenAiSseFrame(p)) == Some(Sse.SseEvent(None, p, None, None))
  {
    var raw := "data: " + p + "\n\n";
    assert raw == Sse.OpenAiSseFrame(p);
    assert StartsWith(raw, Sse.DATA_FIELD) && raw[5] == ' ';
    assert !EndsWith(raw, CRLF_CRLF) by {
      assert raw[|raw| - 4..][2] == raw[|raw| - 2] == '\n';
    }
    assert EndsWith(raw, LF_LF);
    assert raw[6..|raw| - 2] == p;
  }

  // ---------------------------------------------------------------------
  // Tool-call arguments

  /** `parsed_call_arguments_delta`: the raw arguments JSON the parser kept
      when it has one, otherwise the serialised value (`serialized`, the
      result of `serde_json::to_string`), otherwise `{}`. */
  function ParsedCallArgumentsDelta(argumentsJson: Option<bytes>, serialized: Option<bytes>): (r: bytes)
    ensures argumentsJson.Some? ==> r == argumentsJson.value
    ensures argumentsJson.None? && serialized.None? ==> r == "{}"
    ensures argumentsJson.None? && serialized.Some? ==> r == serialized.value
  {
    match argumentsJson
    case Some(raw) => raw
    case None => serialized.GetOr("{}")
  }
}
