/** Server-sent events (`src/stream/sse.rs`): the incremental line parser
    `SseParser`, the queue of parsed events `PendingEvents`, the frame and
    event encoders, the `[DONE]` helpers and the search for a frame
    terminator. The line rules follow the event-stream format of the WHATWG
    HTML standard (section 9.2.6) as far as the code does.

    Text is modelled as `bytes`; the parser's `&str` input and the UTF-8
    reassembly of the async stream builders are not part of this model. */
module Sse {
  import opened Wrappers
  import opened Bytes
  import opened Ints
  import Util

  /** `SseEvent` of `src/stream/mod.rs`. */
  datatype SseEvent = SseEvent(event: Option<bytes>, data: bytes, id: Option<bytes>, retry: Option<u64>)

  /** `SseEvent::default()`, the value `mem::take` leaves behind. */
  const EMPTY_EVENT: SseEvent := SseEvent(None, [], None, None)

  // ---------------------------------------------------------------------
  // Line rules

  /** The parser's per-event fields: `event_type`, `data_buffer`,
      `has_data` and `last_event_id`. */
  datatype LineState = LineState(eventType: Option<bytes>, data: bytes, hasData: bool, lastEventId: Option<bytes>)

  const FRESH: LineState := LineState(None, [], false, None)

  /** Between events: no data, no event type waiting. */
  predicate Idle(st: LineState) {
    !st.hasData && st.data == [] && st.eventType.None?
  }

  /** `strip_prefix(' ').unwrap_or(value)`: at most one leading space goes. */
  function StripOneSpace(v: bytes): (r: bytes)
    ensures r == v || (|v| > 0 && v[0] == ' ' && r == v[1..])
  {
    if |v| > 0 && v[0] == ' ' then v[1..] else v
  }

  /** `strip_suffix('\r')` on a line. */
  function StripCr(line: bytes): (r: bytes)
    ensures r == line || (|line| > 0 && line[|line| - 1] == '\r' && r == line[..|line| - 1])
  {
    if |line| > 0 && line[|line| - 1] == '\r' then line[..|line| - 1] else line
  }

  const DATA_FIELD: bytes := "data:"
  const EVENT_FIELD: bytes := "event:"
  const ID_FIELD: bytes := "id:"

  /** What one line does: the new fields and the events it dispatches. */
  datatype LineResult = LineResult(st: LineState, events: seq<SseEvent>)

  /** `process_line`: a blank line dispatches the event when data was seen;
      a comment is skipped; `data:`, `event:` and `id:` set their fields;
      `retry:` and unknown fields change nothing. */
  function ProcessLine(line: bytes, st: LineState): (r: LineResult)
    ensures |r.events| <= 1
    ensures r.st.lastEventId != st.lastEventId ==> StartsWith(line, ID_FIELD)
  {
    if line == [] then
      if st.hasData then
        LineResult(LineState(None, [], false, st.lastEventId), [SseEvent(st.eventType, st.data, st.lastEventId, None)])
      else LineResult(st, [])
    else if line[0] == ':' then LineResult(st, [])
    else if StartsWith(line, DATA_FIELD) then
      var v := StripOneSpace(line[|DATA_FIELD|..]);
      LineResult(st.(data := if st.hasData then st.data + "\n" + v else st.data + v, hasData := true), [])
    else if StartsWith(line, EVENT_FIELD) then
      LineResult(st.(eventType := Some(StripOneSpace(line[|EVENT_FIELD|..]))), [])
    else if StartsWith(line, ID_FIELD) then
      LineResult(st.(lastEventId := Some(StripOneSpace(line[|ID_FIELD|..]))), [])
    else LineResult(st, [])
  }

  /** A line that changes nothing: a comment, a `retry:` line or an unknown
      field name. */
  predicate Ignored(line: bytes) {
    |line| > 0 && (line[0] == ':' || (!StartsWith(line, DATA_FIELD) && !StartsWith(line, EVENT_FIELD) && !StartsWith(line, ID_FIELD)))
  }

  // ---------------------------------------------------------------------
  // Scanning text

  /** Where reading some text leaves the parser: its fields, the events
      dispatched, and the unfinished last line. */
  datatype Fed = Fed(st: LineState, events: seq<SseEvent>, rest: bytes)

  /** Reading `text` after the unfinished line `line`: every `\n` completes
      a line, which loses one trailing `\r` and is then processed. */
  function ScanFrom(st: LineState, line: bytes, text: bytes): Fed
    decreases |text|
  {
    if text == [] then Fed(st, [], line)
    else if text[0] == '\n' then
      var p := ProcessLine(StripCr(line), st);
      var g := ScanFrom(p.st, [], text[1..]);
      Fed(g.st, p.events + g.events, g.rest)
    else ScanFrom(st, line + [text[0]], text[1..])
  }

  /** What `feed_into` computes: the unprocessed text, then the chunk. */
  function Feed(st: LineState, pending: bytes, chunk: bytes): Fed {
    ScanFrom(st, [], pending + chunk)
  }

  /** Reading `more` after a scan has stopped. */
  function Then(f: Fed, more: bytes): Fed {
    var g := ScanFrom(f.st, f.rest, more);
    Fed(g.st, f.events + g.events, g.rest)
  }

  /** The unfinished line never holds a `\n`; text without a newline
      dispatches nothing and is all kept. */
  lemma {:induction false} ScanFromRest(st: LineState, line: bytes, text: bytes)
    requires !HasByte(line, '\n')
    ensures var r := ScanFrom(st, line, text);
      && !HasByte(r.rest, '\n')
      && (!HasByte(text, '\n') ==> r == Fed(st, [], line + text))
    decreases |text|
  {
    if text == [] {
    } else if text[0] == '\n' {
      ScanFromRest(ProcessLine(StripCr(line), st).st, [], text[1..]);
    } else {
      var line' := line + [text[0]];
      assert !HasByte(line', '\n');
      ScanFromRest(st, line', text[1..]);
      if !HasByte(text, '\n') {
        assert line' + text[1..] == line + text;
      }
    }
  }

  /** Once a `\n` has been read, the unfinished line is exactly what
      follows the last one. */
  lemma {:induction false} ScanFromRestAfterNewline(st: LineState, line: bytes, text: bytes)
    requires HasByte(text, '\n')
    ensures var r := ScanFrom(st, line, text);
      |r.rest| < |text| && text[|text| - |r.rest| - 1] == '\n' && r.rest == text[|text| - |r.rest|..]
    decreases |text|
  {
    var g;
    if text[0] == '\n' {
      var p := ProcessLine(StripCr(line), st).st;
      g := ScanFrom(p, [], text[1..]);
      if !HasByte(text[1..], '\n') {
        ScanFromRest(p, [], text[1..]);
        assert ScanFrom(st, line, text).rest == text[1..];
        assert |text| - |text[1..]| - 1 == 0;
        return;
      }
      ScanFromRestAfterNewline(p, [], text[1..]);
    } else {
      assert HasByte(text[1..], '\n');
      g := ScanFrom(st, line + [text[0]], text[1..]);
      ScanFromRestAfterNewline(st, line + [text[0]], text[1..]);
    }
    var n := |g.rest|;
    assert ScanFrom(st, line, text).rest == g.rest;
    assert text[1..][|text| - 1 - n - 1] == '\n' && g.rest == text[1..][|text| - 1 - n..];
    SuffixOfTail(text, n);
  }

  lemma SuffixOfTail(s: bytes, n: nat)
    requires n + 1 < |s|
    ensures s[|s| - n..] == s[1..][|s| - 1 - n..]
    ensures s[|s| - n - 1] == s[1..][|s| - 1 - n - 1]
  {
  }

  /** Chunk boundaries do not matter: reading `a + b` is reading `a`, then
      `b`. */
  lemma {:induction false} ScanFromConcat(st: LineState, line: bytes, a: bytes, b: bytes)
    ensures ScanFrom(st, line, a + b) == Then(ScanFrom(st, line, a), b)
    decreases |a|
  {
    if a == [] {
      assert a + b == b;
    } else if a[0] == '\n' {
      var p := ProcessLine(StripCr(line), st);
      assert (a + b)[0] == '\n' && (a + b)[1..] == a[1..] + b;
      ScanFromConcat(p.st, [], a[1..], b);
      var f, g := ScanFrom(p.st, [], a[1..]), ScanFrom(p.st, [], a[1..] + b);
      var h := ScanFrom(f.st, f.rest, b);
      assert g.events == f.events + h.events;
      assert p.events + (f.events + h.events) == (p.events + f.events) + h.events;
    } else {
      assert (a + b)[0] == a[0] && (a + b)[1..] == a[1..] + b;
      ScanFromConcat(st, line + [a[0]], a[1..], b);
    }
  }

  /** An unfinished line may as well be read again from the start. */
  lemma {:induction false} ScanFromLine(st: LineState, pre: bytes, line: bytes, text: bytes)
    requires !HasByte(line, '\n')
    ensures ScanFrom(st, pre, line + text) == ScanFrom(st, pre + line, text)
    decreases |line|
  {
    if line == [] {
      assert line + text == text && pre + line == pre;
    } else {
      assert (line + text)[0] == line[0] && (line + text)[1..] == line[1..] + text;
      assert !HasByte(line[1..], '\n');
      ScanFromLine(st, pre + [line[0]], line[1..], text);
      assert pre + [line[0]] + line[1..] == pre + line;
    }
  }

  /** `feed_into` twice is `feed_into` once on the joined chunks: the same
      events, the same fields, the same unfinished line. */
  lemma FeedChunked(st: LineState, pending: bytes, a: bytes, b: bytes)
    ensures var first := Feed(st, pending, a);
      var second := Feed(first.st, first.rest, b);
      Feed(st, pending, a + b) == Fed(second.st, first.events + second.events, second.rest)
  {
    var first := Feed(st, pending, a);
    assert pending + (a + b) == (pending + a) + b;
    ScanFromConcat(st, [], pending + a, b);
    ScanFromRest(st, [], pending + a);
    ScanFromLine(first.st, [], first.rest, b);
    assert [] + first.rest == first.rest;
  }

  /** One complete line `l` followed by `more`. */
  lemma ScanLine(st: LineState, l: bytes, more: bytes)
    requires !HasByte(l, '\n')
    ensures var p := ProcessLine(StripCr(l), st);
      var g := ScanFrom(p.st, [], more);
      ScanFrom(st, [], l + "\n" + more) == Fed(g.st, p.events + g.events, g.rest)
  {
    assert l + "\n" + more == l + ("\n" + more);
    ScanFromLine(st, [], l, "\n" + more);
    assert [] + l == l;
    assert ("\n" + more)[0] == '\n' && ("\n" + more)[1..] == more;
  }

  /** A trailing CR is dropped: `l\r\n` reads like `l\n`. */
  lemma CrlfLikeLf(st: LineState, l: bytes, more: bytes)
    requires !HasByte(l, '\n') && !HasByte(l, '\r')
    ensures ScanFrom(st, [], l + "\r\n" + more) == ScanFrom(st, [], l + "\n" + more)
  {
    var l' := l + "\r";
    assert !HasByte(l', '\n');
    assert l + "\r\n" + more == l' + "\n" + more;
    ScanLine(st, l', more);
    ScanLine(st, l, more);
    assert StripCr(l') == l;
    assert StripCr(l) == l;
  }

  /** Comments, `retry:` lines and unknown fields leave the events and the
      fields exactly as if the line were not there. */
  lemma IgnoredLineTransparent(st: LineState, l: bytes, more: bytes)
    requires !HasByte(l, '\n') && Ignored(StripCr(l))
    ensures ScanFrom(st, [], l + "\n" + more) == ScanFrom(st, [], more)
  {
    ScanLine(st, l, more);
    assert [] + ScanFrom(st, [], more).events == ScanFrom(st, [], more).events;
  }

  /** Exactly one space after `data:` is dropped: a value that does not
      start with a space reads the same with or without it. */
  lemma DataSpaceOptional(st: LineState, v: bytes)
    requires |v| == 0 || v[0] != ' '
    ensures ProcessLine(DATA_FIELD + v, st) == ProcessLine(DATA_FIELD + " " + v, st)
  {
    assert (DATA_FIELD + v)[|DATA_FIELD|..] == v;
    assert (DATA_FIELD + " " + v)[|DATA_FIELD|..] == " " + v;
    assert StartsWith(DATA_FIELD + v, DATA_FIELD) && StartsWith(DATA_FIELD + " " + v, DATA_FIELD);
    assert (" " + v)[1..] == v;
  }

  /** The data buffer is empty whenever no data line is pending, so the
      first data line of an event starts it afresh: reading any text keeps
      this so. */
  lemma {:induction false} DataEmptyUntilSeen(st: LineState, line: bytes, text: bytes)
    requires st.hasData || st.data == []
    ensures var r := ScanFrom(st, line, text).st; r.hasData || r.data == []
    decreases |text|
  {
    if text == [] {
    } else if text[0] == '\n' {
      DataEmptyUntilSeen(ProcessLine(StripCr(line), st).st, [], text[1..]);
    } else {
      DataEmptyUntilSeen(st, line + [text[0]], text[1..]);
    }
  }

  /** A blank line with no data seen since the last dispatch changes
      nothing; a blank line after data dispatches exactly one event carrying
      the event type, the data and the last id, and consumes the event type
      but keeps the id. */
  lemma BlankLine(st: LineState, more: bytes)
    ensures !st.hasData ==> ScanFrom(st, [], "\n" + more) == ScanFrom(st, [], more)
    ensures st.hasData ==>
      var st' := LineState(None, [], false, st.lastEventId);
      var g := ScanFrom(st', [], more);
      && Idle(st')
      && ScanFrom(st, [], "\n" + more) == Fed(g.st, [SseEvent(st.eventType, st.data, st.lastEventId, None)] + g.events, g.rest)
  {
    assert !HasByte([], '\n');
    ScanLine(st, [], more);
    assert [] + "\n" + more == "\n" + more;
  }

  /** One character of the loop of `feed_into`, with the events `out`
      already written: a `\n` processes the line read so far, anything else
      extends it. */
  lemma ScanStep(st: LineState, out: seq<SseEvent>, line: bytes, text: bytes)
    requires |text| > 0
    ensures text[0] == '\n' ==>
      var p := ProcessLine(StripCr(line), st);
      Then(Fed(st, out, line), text) == Then(Fed(p.st, out + p.events, []), text[1..])
    ensures text[0] != '\n' ==>
      Then(Fed(st, out, line), text) == Then(Fed(st, out, line + [text[0]]), text[1..])
  {
    if text[0] == '\n' {
      var p := ProcessLine(StripCr(line), st);
      var g := ScanFrom(p.st, [], text[1..]);
      assert out + (p.events + g.events) == (out + p.events) + g.events;
    }
  }

  /** The buffer `feed_into` keeps after reading `total` up to `p`: nothing
      when all of it is read; only the unread part when at least half of
      it, or at least 8 KiB, has been read; otherwise all of it, with the
      offset. The unread text is never lost. */
  function Compacted(total: bytes, p: nat): (r: (bytes, nat))
    requires p <= |total|
    ensures r.1 <= |r.0| && r.0[r.1..] == total[p..]
    ensures r.1 == 0 || r.0 == total
    ensures |r.0| <= |total|
  {
    if p == |total| then ([], 0)
    else if p > 0 && (p >= |total| / 2 || p >= 8 * 1024) then (total[p..], 0)
    else (total, p)
  }

  // ---------------------------------------------------------------------
  // The parser object

  /** `SseParser`: the text received so far with the offset up to which it
      has been read, and the per-event fields. */
  class SseParser {
    var buffer: bytes
    var readOffset: nat
    var eventType: Option<bytes>
    var dataBuffer: bytes
    var hasData: bool
    var lastEventId: Option<bytes>

    /** The offset lies in the buffer, and everything after it is one
        unfinished line. */
    ghost predicate Valid()
      reads this
    {
      readOffset <= |buffer| && !HasByte(buffer[readOffset..], '\n')
    }

    function State(): LineState
      reads this
    {
      LineState(eventType, dataBuffer, hasData, lastEventId)
    }

    /** The unfinished line. */
    function Pending(): bytes
      reads this
      requires readOffset <= |buffer|
    {
      buffer[readOffset..]
    }

    /** `SseParser::new`. */
    constructor ()
      ensures Valid() && State() == FRESH && buffer == [] && readOffset == 0
    {
      buffer, readOffset := [], 0;
      eventType, dataBuffer, hasData, lastEventId := None, [], false, None;
    }

    /** `process_line`, on the parser's own fields; `events` is the
        caller's vector. */
    method ProcessLineInto(line: bytes, events: seq<SseEvent>) returns (events': seq<SseEvent>)
      modifies this
      ensures State() == ProcessLine(line, old(State())).st
      ensures events' == events + ProcessLine(line, old(State())).events
      ensures buffer == old(buffer) && readOffset == old(readOffset)
    {
      events' := events;
      if line == [] {
        if hasData {
          events' := events' + [SseEvent(eventType, dataBuffer, lastEventId, None)];
          eventType, dataBuffer, hasData := None, [], false;
        }
        return;
      }
      if line[0] == ':' {
        return;
      }
      if StartsWith(line, DATA_FIELD) {
        var v := StripOneSpace(line[|DATA_FIELD|..]);
        if hasData {
          dataBuffer := dataBuffer + "\n";
        } else {
          hasData := true;
        }
        dataBuffer := dataBuffer + v;
      } else if StartsWith(line, EVENT_FIELD) {
        eventType := Some(StripOneSpace(line[|EVENT_FIELD|..]));
      } else if StartsWith(line, ID_FIELD) {
        lastEventId := Some(StripOneSpace(line[|ID_FIELD|..]));
      }
    }

    /** A completed line, without one trailing CR, is processed and its
        events appended to `out`. */
    method EndLine(line: bytes, out: seq<SseEvent>) returns (out': seq<SseEvent>)
      modifies this
      ensures var p := ProcessLine(StripCr(line), old(State()));
        State() == p.st && out' == out + p.events
      ensures buffer == old(buffer) && readOffset == old(readOffset)
    {
      var stripped := line;
      if |stripped| > 0 && stripped[|stripped| - 1] == '\r' {
        stripped := stripped[..|stripped| - 1];
      }
      out' := ProcessLineInto(stripped, out);
    }

    /** The loop of `feed_into`: every line of `total` that a `\n` completes
        from `from` on is processed in order, its events appended to `out`;
        `processed` is where the unfinished line starts. */
    method ReadLines(total: bytes, from: nat, out: seq<SseEvent>) returns (processed: nat, out': seq<SseEvent>)
      requires from <= |total|
      modifies this
      ensures from <= processed <= |total|
      ensures var r := ScanFrom(old(State()), [], total[from..]);
        State() == r.st && total[processed..] == r.rest && out' == out + r.events
      ensures buffer == old(buffer) && readOffset == old(readOffset)
    {
      ghost var target := ScanFrom(State(), [], total[from..]);
      processed := from;
      var k := from;
      out' := out;
      assert total[processed..k] == [];
      while k < |total|
        invariant from <= processed <= k <= |total|
        invariant buffer == old(buffer) && readOffset == old(readOffset)
        invariant !HasByte(total[processed..k], '\n')
        invariant Then(Fed(State(), out', total[processed..k]), total[k..]) == Fed(target.st, out + target.events, target.rest)
        decreases |total| - k
      {
        ScanStep(State(), out', total[processed..k], total[k..]);
        assert total[k..][0] == total[k] && total[k..][1..] == total[k + 1..];
        if total[k] == '\n' {
          out' := EndLine(total[processed..k], out');
          processed := k + 1;
          assert total[processed..k + 1] == [];
        } else {
          assert total[processed..k + 1] == total[processed..k] + [total[k]];
        }
        k := k + 1;
      }
      assert total[k..] == [] && total[processed..k] + [] == total[processed..];
    }

    /** `feed_into`: the chunk is appended to the buffer, every completed
        line is processed in order and its events appended to `out`; the
        read part of the buffer is then dropped as `Compacted` says. */
    method FeedInto(chunk: bytes, out: seq<SseEvent>) returns (out': seq<SseEvent>)
      requires Valid()
      modifies this
      ensures Valid()
      ensures var r := Feed(old(State()), old(Pending()), chunk);
        State() == r.st && Pending() == r.rest && out' == out + r.events
      ensures var total := old(buffer) + chunk;
        |Pending()| <= |total| && (buffer, readOffset) == Compacted(total, |total| - |Pending()|)
    {
      var total := buffer + chunk;
      assert total[readOffset..] == Pending() + chunk;
      ghost var r := Feed(State(), Pending(), chunk);
      var processed;
      processed, out' := ReadLines(total, readOffset, out);
      assert total[processed..] == r.rest;
      ScanFromRest(old(State()), [], old(Pending()) + chunk);
      buffer, readOffset := Compacted(total, processed).0, Compacted(total, processed).1;
    }

    /** `feed`: the events of one chunk, in a fresh vector. */
    method FeedChunk(chunk: bytes) returns (events: seq<SseEvent>)
      requires Valid()
      modifies this
      ensures Valid()
      ensures var r := Feed(old(State()), old(Pending()), chunk);
        State() == r.st && Pending() == r.rest && events == r.events
    {
      events := FeedInto(chunk, []);
    }
  }

  // ---------------------------------------------------------------------
  // The queue of parsed events

  /** `PendingEvents`: parsed events not yet handed out, from `head` on. */
  class PendingEvents {
    var events: seq<SseEvent>
    var head: nat

    ghost predicate Valid()
      reads this
    {
      head <= |events|
    }

    /** The events still queued, oldest first. */
    function Contents(): seq<SseEvent>
      reads this
      requires Valid()
    {
      events[head..]
    }

    /** `with_capacity`: an empty queue (the capacity is a reservation only). */
    constructor WithCapacity(capacity: nat)
      ensures Valid() && events == [] && head == 0 && Contents() == []
    {
      events, head := [], 0;
    }

    /** `pop_front`: the oldest queued event, or None; the slot it leaves
        holds the default event, and the storage is cleared once every event
        has been handed out. */
    method PopFront() returns (r: Option<SseEvent>)
      requires Valid()
      modifies this
      ensures Valid()
      ensures old(Contents()) == [] ==> r.None? && Contents() == []
      ensures old(Contents()) != [] ==> r == Some(old(Contents())[0]) && Contents() == old(Contents())[1..]
      ensures if old(head) >= |old(events)| then events == old(events) && head == old(head)
              else if old(head) + 1 == |old(events)| then events == [] && head == 0
              else events == old(events)[old(head) := EMPTY_EVENT] && head == old(head) + 1
    {
      if head >= |events| {
        return None;
      }
      var event := events[head];
      events := events[head := EMPTY_EVENT];
      head := head + 1;
      if head == |events| {
        events, head := [], 0;
      }
      r := Some(event);
    }

    /** `extend_from_vec`: every parsed event is queued behind the others
        and the caller's vector is left empty. */
    method ExtendFromVec(parsed: seq<SseEvent>) returns (parsed': seq<SseEvent>)
      requires Valid()
      modifies this
      ensures Valid()
      ensures Contents() == old(Contents()) + parsed && parsed' == []
      ensures events == old(events) + parsed && head == old(head)
    {
      if parsed == [] {
        return [];
      }
      events := events + parsed;
      parsed' := [];
    }
  }

  // ---------------------------------------------------------------------
  // Encoders

  /** `SseFrame`: an optional event name and the data. */
  datatype SseFrame = SseFrame(event: Option<bytes>, data: bytes)

  const DONE_FRAME: bytes := "data: [DONE]\n\n"

  /** `openai_sse_frame` (and `gemini_sse_frame`, which is the same). */
  function OpenAiSseFrame(json: bytes): (r: bytes)
    ensures StartsWith(r, "data: ") && EndsWith(r, "\n\n")
  {
    "data: " + json + "\n\n"
  }

  /** `anthropic_sse_frame`. */
  function AnthropicSseFrame(eventType: bytes, json: bytes): (r: bytes)
    ensures StartsWith(r, "event: ") && EndsWith(r, "\n\n")
  {
    "event: " + eventType + "\n" + "data: " + json + "\n\n"
  }

  /** `encode_sse_frame`: a named frame has its `event:` line, an unnamed
      one is the OpenAI frame. */
  function EncodeSseFrame(frame: SseFrame): (r: bytes)
    ensures frame.event.None? ==> r == OpenAiSseFrame(frame.data)
    ensures frame.event.Some? ==> r == AnthropicSseFrame(frame.event.value, frame.data)
  {
    match frame.event
    case Some(ev) => "event: " + ev + "\n" + "data: " + frame.data + "\n\n"
    case None => OpenAiSseFrame(frame.data)
  }

  /** One `data: ` line per piece. */
  function DataLines(lines: seq<bytes>): bytes
    decreases |lines|
  {
    if lines == [] then [] else "data: " + lines[0] + "\n" + DataLines(lines[1..])
  }

  lemma {:induction false} DataLinesSnoc(lines: seq<bytes>, l: bytes)
    ensures DataLines(lines + [l]) == DataLines(lines) + "data: " + l + "\n"
    decreases |lines|
  {
    if lines == [] {
      assert lines + [l] == [l];
    } else {
      assert (lines + [l])[0] == lines[0] && (lines + [l])[1..] == lines[1..] + [l];
      DataLinesSnoc(lines[1..], l);
    }
  }

  /** The wire text of an event: its `event:` line, one `data: ` line per
      `\n`-separated piece of the data, its `id:` line, and a blank line. */
  function EventText(e: SseEvent): bytes {
    EventLine(e) + DataLines(SplitOn(e.data, '\n')) + IdLine(e) + "\n"
  }

  function EventLine(e: SseEvent): bytes {
    if e.event.Some? then "event: " + e.event.value + "\n" else []
  }

  function IdLine(e: SseEvent): bytes {
    if e.id.Some? then "id: " + e.id.value + "\n" else []
  }

  /** Data without a newline is one piece. */
  lemma SplitOnePiece(s: bytes, sep: byte)
    requires !HasByte(s, sep)
    ensures SplitOn(s, sep) == [s]
  {
    assert forall k | 0 <= k < |s| :: s[k] != sep;
  }

  /** An unnamed single-line event without id is written as the OpenAI
      frame of its data. */
  lemma FastPathText(e: SseEvent)
    requires e.event.None? && e.id.None? && !HasByte(e.data, '\n')
    ensures EventText(e) == OpenAiSseFrame(e.data)
  {
    SplitOnePiece(e.data, '\n');
    assert DataLines([e.data]) == "data: " + e.data + "\n";
  }

  /** `encode_sse_event`: the fast path for an unnamed single-line event
      without id writes the OpenAI frame, which is the same text. */
  method EncodeSseEvent(e: SseEvent) returns (out: bytes)
    ensures out == EventText(e)
  {
    if e.event.None? && e.id.None? && !HasByte(e.data, '\n') {
      FastPathText(e);
      return OpenAiSseFrame(e.data);
    }
    out := [];
    if e.event.Some? {
      out := out + "event: " + e.event.value + "\n";
    }
    assert out == EventLine(e);
    out := PushDataLines(out, e.data);
    var idLine: bytes := [];
    if e.id.Some? {
      idLine := "id: " + e.id.value + "\n";
      out := out + idLine;
    }
    out := out + "\n";
    assert idLine == IdLine(e);
  }

  /** The loop of `encode_sse_event` over `data.split('\n')`. */
  method PushDataLines(out: bytes, data: bytes) returns (r: bytes)
    ensures r == out + DataLines(SplitOn(data, '\n'))
  {
    r := out;
    var lines := SplitOn(data, '\n');
    for i := 0 to |lines|
      invariant r == out + DataLines(lines[..i])
    {
      DataLinesSnoc(lines[..i], lines[i]);
      assert lines[..i + 1] == lines[..i] + [lines[i]];
      r := r + "data: " + lines[i] + "\n";
    }
    assert lines[..|lines|] == lines;
  }

  /** `is_done_frame`: the data, trimmed, is `[DONE]`. */
  predicate IsDoneFrame(frame: SseFrame) {
    Trim(frame.data) == "[DONE]"
  }

  /** `is_done_event`. */
  predicate IsDoneEvent(event: SseEvent) {
    Trim(event.data) == "[DONE]"
  }

  /** `done_frame`. */
  function DoneFrame(): (r: bytes)
    ensures r == EncodeSseFrame(SseFrame(None, "[DONE]"))
  {
    DONE_FRAME
  }

  // ---------------------------------------------------------------------
  // Encoding, then parsing

  /** An event the wire format can carry unchanged: its name and id are
      single lines, and no line of it ends in a CR that parsing would drop. */
  predicate Encodable(e: SseEvent) {
    (e.event.Some? ==> !HasByte(e.event.value, '\n') && !HasByte(e.event.value, '\r'))
    && (e.id.Some? ==> !HasByte(e.id.value, '\n') && !HasByte(e.id.value, '\r'))
    && !HasByte(e.data, '\r')
  }

  /** The state a field line `name + " " + v` leaves. */
  function FieldSet(st: LineState, name: bytes, v: bytes): LineState {
    if name == DATA_FIELD then st.(data := if st.hasData then st.data + "\n" + v else st.data + v, hasData := true)
    else if name == EVENT_FIELD then st.(eventType := Some(v))
    else st.(lastEventId := Some(v))
  }

  /** A field line `name + " " + v` sets its field and dispatches nothing. */
  lemma FieldProcess(st: LineState, name: bytes, v: bytes)
    requires name == DATA_FIELD || name == EVENT_FIELD || name == ID_FIELD
    ensures ProcessLine(name + " " + v, st) == LineResult(FieldSet(st, name, v), [])
  {
    var l := name + " " + v;
    assert l[|name|..] == " " + v;
    assert StripOneSpace(" " + v) == v;
    assert StartsWith(l, name);
    assert l != [] && l[0] != ':';
    if name == EVENT_FIELD {
      assert l[0] == 'e';
      assert !StartsWith(l, DATA_FIELD);
    } else if name == ID_FIELD {
      assert l[0] == 'i';
      assert !StartsWith(l, DATA_FIELD) && !StartsWith(l, EVENT_FIELD);
    }
  }

  /** A field line `name + " " + v` with a single-line value, read as a
      whole line. */
  lemma FieldLine(st: LineState, name: bytes, v: bytes, more: bytes)
    requires name == DATA_FIELD || name == EVENT_FIELD || name == ID_FIELD
    requires !HasByte(v, '\n') && !HasByte(v, '\r')
    ensures var p := ProcessLine(name + " " + v, st);
      var g := ScanFrom(p.st, [], more);
      && ScanFrom(st, [], name + " " + v + "\n" + more) == Fed(g.st, p.events + g.events, g.rest)
      && p.events == []
      && (name == DATA_FIELD ==> p.st == st.(data := if st.hasData then st.data + "\n" + v else st.data + v, hasData := true))
      && (name == EVENT_FIELD ==> p.st == st.(eventType := Some(v)))
      && (name == ID_FIELD ==> p.st == st.(lastEventId := Some(v)))
  {
    var l := name + " " + v;
    assert !HasByte(l, '\n') by {
      assert l == name + (" " + v);
    }
    assert StripCr(l) == l by {
      assert l[|l| - 1] == if v == [] then ' ' else v[|v| - 1];
    }
    FieldProcess(st, name, v);
    ScanLine(st, l, more);
  }

  /** Data pieces, one `data: ` line each, are joined with `\n` into the
      data field. */
  lemma {:induction false} ScanDataLines(st: LineState, lines: seq<bytes>, more: bytes)
    requires |lines| > 0
    requires forall n | 0 <= n < |lines| :: !HasByte(lines[n], '\n') && !HasByte(lines[n], '\r')
    ensures ScanFrom(st, [], DataLines(lines) + more) ==
      ScanFrom(st.(data := (if st.hasData then st.data + "\n" else st.data) + JoinWith(lines, '\n'), hasData := true), [], more)
    decreases |lines|
  {
    var l := lines[0];
    var rest := DataLines(lines[1..]) + more;
    var st1 := st.(data := if st.hasData then st.data + "\n" + l else st.data + l, hasData := true);
    assert ScanFrom(st, [], DataLines(lines) + more) == ScanFrom(st1, [], rest) by {
      assert DataLines(lines) + more == DATA_FIELD + " " + l + "\n" + rest;
      FieldLine(st, DATA_FIELD, l, rest);
      assert [] + ScanFrom(st1, [], rest).events == ScanFrom(st1, [], rest).events;
    }
    if |lines| == 1 {
      assert rest == more by {
        assert DataLines(lines[1..]) == [];
      }
    } else {
      var j := JoinWith(lines[1..], '\n');
      ScanDataLines(st1, lines[1..], more);
      assert st1.data + "\n" + j == (if st.hasData then st.data + "\n" else st.data) + JoinWith(lines, '\n') by {
        assert JoinWith(lines, '\n') == l + "\n" + j;
      }
    }
  }

  /** Each piece of a split has neither the separator nor a byte the text
      lacks. */
  lemma {:induction false} SplitOnPieces(s: bytes, sep: byte, b: byte)
    requires !HasByte(s, b)
    ensures forall n | 0 <= n < |SplitOn(s, sep)| :: !HasByte(SplitOn(s, sep)[n], b)
    decreases |s|
  {
    match FindByte(s, sep, 0)
    case None =>
    case Some(k) =>
      assert !HasByte(s[..k], b);
      assert !HasByte(s[k + 1..], b);
      SplitOnPieces(s[k + 1..], sep, b);
  }

  /** The id an event is dispatched with: its own, or the last one seen. */
  function IdAfter(e: SseEvent, lastId: Option<bytes>): Option<bytes> {
    if e.id.Some? then e.id else lastId
  }

  /** Parsing the text of an encodable event between events gives back the
      event, with the last id seen when it has none and without `retry`;
      the parser is left between events, remembering that id. */
  lemma EventRoundTrip(st: LineState, e: SseEvent, more: bytes)
    requires Idle(st) && Encodable(e)
    ensures var id := IdAfter(e, st.lastEventId);
      ScanFrom(st, [], EventText(e) + more) ==
      Then(Fed(LineState(None, [], false, id), [SseEvent(e.event, e.data, id, None)], []), more)
  {
    var id := IdAfter(e, st.lastEventId);
    var lines := SplitOn(e.data, '\n');
    var tail := IdLine(e) + "\n" + more;
    var afterEvent := DataLines(lines) + tail;
    var st1 := if e.event.Some? then st.(eventType := e.event) else st;
    var st2 := st1.(data := e.data, hasData := true);
    var st3 := if e.id.Some? then st2.(lastEventId := e.id) else st2;
    assert EventText(e) + more == EventLine(e) + afterEvent by {
      Reassociate(EventLine(e), DataLines(lines), IdLine(e), "\n", more);
    }
    EventLineStep(st, e, afterEvent);
    assert ScanFrom(st1, [], afterEvent) == ScanFrom(st2, [], tail) by {
      SplitOnPieces(e.data, '\n', '\r');
      JoinSplit(e.data, '\n');
      ScanDataLines(st1, lines, tail);
      assert st1.data + JoinWith(lines, '\n') == e.data;
    }
    IdLineStep(st2, e, "\n" + more);
    assert tail == IdLine(e) + ("\n" + more);
    BlankLine(st3, more);
    assert st3 == LineState(e.event, e.data, true, id);
  }

  lemma Reassociate(a: bytes, b: bytes, c: bytes, d: bytes, m: bytes)
    ensures a + b + c + d + m == a + (b + (c + d + m))
  {
    assert a + b + c + d + m == a + (b + c + d + m);
    assert b + c + d + m == b + (c + d + m);
  }

  lemma EventLineStep(st: LineState, e: SseEvent, more: bytes)
    requires Encodable(e)
    ensures ScanFrom(st, [], EventLine(e) + more) == ScanFrom(if e.event.Some? then st.(eventType := e.event) else st, [], more)
  {
    if e.event.Some? {
      FieldLine(st, EVENT_FIELD, e.event.value, more);
      assert EventLine(e) + more == EVENT_FIELD + " " + e.event.value + "\n" + more;
      var g := ScanFrom(st.(eventType := e.event), [], more);
      assert [] + g.events == g.events;
    } else {
      assert EventLine(e) + more == more;
    }
  }

  lemma IdLineStep(st: LineState, e: SseEvent, more: bytes)
    requires Encodable(e)
    ensures ScanFrom(st, [], IdLine(e) + more) == ScanFrom(if e.id.Some? then st.(lastEventId := e.id) else st, [], more)
  {
    if e.id.Some? {
      FieldLine(st, ID_FIELD, e.id.value, more);
      assert IdLine(e) + more == ID_FIELD + " " + e.id.value + "\n" + more;
      var g := ScanFrom(st.(lastEventId := e.id), [], more);
      assert [] + g.events == g.events;
    } else {
      assert IdLine(e) + more == more;
    }
  }

  /** The wire text of several events, one after the other. */
  function Stream(es: seq<SseEvent>): bytes
    decreases |es|
  {
    if es == [] then [] else EventText(es[0]) + Stream(es[1..])
  }

  /** The events parsing gives back: each with its own name and data, and
      the id last seen, which persists until another replaces it. */
  function Decoded(es: seq<SseEvent>, lastId: Option<bytes>): seq<SseEvent>
    decreases |es|
  {
    if es == [] then []
    else
      var id := IdAfter(es[0], lastId);
      [SseEvent(es[0].event, es[0].data, id, None)] + Decoded(es[1..], id)
  }

  function LastIdAfter(es: seq<SseEvent>, lastId: Option<bytes>): Option<bytes>
    decreases |es|
  {
    if es == [] then lastId else LastIdAfter(es[1..], IdAfter(es[0], lastId))
  }

  /** Encoding events and parsing the text gives them back in order: an
      event name belongs to its own event only, the last id carries over to
      later events without one, and `retry` is not carried. */
  lemma {:induction false} StreamRoundTrip(st: LineState, es: seq<SseEvent>, more: bytes)
    requires Idle(st)
    requires forall n | 0 <= n < |es| :: Encodable(es[n])
    ensures ScanFrom(st, [], Stream(es) + more) ==
      Then(Fed(LineState(None, [], false, LastIdAfter(es, st.lastEventId)), Decoded(es, st.lastEventId), []), more)
    decreases |es|
  {
    if es == [] {
      var g := ScanFrom(st, [], more);
      assert Stream(es) + more == more;
      assert [] + g.events == g.events;
    } else {
      var id := IdAfter(es[0], st.lastEventId);
      var st1 := LineState(None, [], false, id);
      var rest := Stream(es[1..]) + more;
      assert Stream(es) + more == EventText(es[0]) + rest;
      EventRoundTrip(st, es[0], rest);
      StreamRoundTrip(st1, es[1..], more);
      var h := ScanFrom(LineState(None, [], false, LastIdAfter(es[1..], id)), [], more);
      var ev := SseEvent(es[0].event, es[0].data, id, None);
      assert [ev] + (Decoded(es[1..], id) + h.events) == ([ev] + Decoded(es[1..], id)) + h.events;
    }
  }

  /** A fresh parser fed the text of some events returns exactly those
      events and keeps nothing back. */
  lemma EncodedStreamParses(es: seq<SseEvent>)
    requires forall n | 0 <= n < |es| :: Encodable(es[n])
    ensures Feed(FRESH, [], Stream(es)) == Fed(LineState(None, [], false, LastIdAfter(es, None)), Decoded(es, None), [])
  {
    IdleStreamParses(FRESH, es);
  }

  /** `EncodedStreamParses` from any state between events. */
  lemma IdleStreamParses(st: LineState, es: seq<SseEvent>)
    requires Idle(st)
    requires forall n | 0 <= n < |es| :: Encodable(es[n])
    ensures Feed(st, [], Stream(es)) ==
      Fed(LineState(None, [], false, LastIdAfter(es, st.lastEventId)), Decoded(es, st.lastEventId), [])
  {
    var text := Stream(es);
    var done := Fed(LineState(None, [], false, LastIdAfter(es, st.lastEventId)), Decoded(es, st.lastEventId), []);
    assert Feed(st, [], text) == ScanFrom(st, [], text + []) by {
      assert [] + text == text && text + [] == text;
    }
    StreamRoundTrip(st, es, []);
    ThenNothing(done);
  }

  /** Reading nothing more after a scan that kept nothing changes nothing. */
  lemma ThenNothing(f: Fed)
    requires f.rest == []
    ensures Then(f, []) == f
  {
    assert f.events + [] == f.events;
  }


  /** A frame whose data is one line is written as the event text of the
      matching event. */
  lemma FrameIsEventText(frame: SseFrame)
    requires !HasByte(frame.data, '\n')
    ensures EncodeSseFrame(frame) == EventText(SseEvent(frame.event, frame.data, None, None))
  {
    var e := SseEvent(frame.event, frame.data, None, None);
    var dl := "data: " + frame.data + "\n";
    assert DataLines(SplitOn(e.data, '\n')) == dl by {
      SplitOnePiece(frame.data, '\n');
      assert DataLines([frame.data]) == dl + DataLines([]);
    }
    assert EventText(e) == EventLine(e) + dl + "\n" by {
      assert IdLine(e) == [];
    }
    match frame.event
    case None =>
      assert EventLine(e) + dl + "\n" == dl + "\n";
    case Some(ev) =>
      assert EventLine(e) == "event: " + ev + "\n";
  }

  /** `encode_sse_frame` writes the event text of a frame whose data is one
      line, so parsing it gives the frame back. */
  lemma FrameRoundTrip(st: LineState, frame: SseFrame)
    requires Idle(st) && !HasByte(frame.data, '\n')
    requires Encodable(SseEvent(frame.event, frame.data, None, None))
    ensures ScanFrom(st, [], EncodeSseFrame(frame)) ==
      Fed(LineState(None, [], false, st.lastEventId), [SseEvent(frame.event, frame.data, st.lastEventId, None)], [])
  {
    var e := SseEvent(frame.event, frame.data, None, None);
    FrameIsEventText(frame);
    EventRoundTrip(st, e, []);
    assert EventText(e) + [] == EventText(e);
  }

  /** The `[DONE]` frame parses to one event that `is_done_event` accepts,
      padded `[DONE]` data is accepted too, and other data is not. */
  lemma DoneFrameIsDone(st: LineState)
    requires Idle(st)
    ensures var r := ScanFrom(st, [], DONE_FRAME);
      |r.events| == 1 && IsDoneEvent(r.events[0]) && r.rest == []
    ensures forall e: SseEvent | Trim(e.data) == "[DONE]" :: IsDoneEvent(e)
  {
    var f := SseFrame(None, "[DONE]");
    assert !HasByte(f.data, '\n') && !HasByte(f.data, '\r');
    FrameRoundTrip(st, f);
    assert EncodeSseFrame(f) == DONE_FRAME;
    Util.TrimPlain(f.data);
  }

  // ---------------------------------------------------------------------
  // Frame terminators

  const LF_LF: bytes := "\n\n"
  const CRLF_CRLF: bytes := "\r\n\r\n"

  /** A blank line ends a frame at `k`. */
  predicate TerminatorAt(buf: bytes, k: nat) {
    MatchAt(buf, LF_LF, k) || MatchAt(buf, CRLF_CRLF, k)
  }

  /** `find_sse_frame_terminator_from`: the earliest `\n\n` or `\r\n\r\n` at
      or after `scan_from` (clamped to the buffer), with its length. */
  function FindSseFrameTerminatorFrom(buf: bytes, scanFrom: nat): (r: Option<(nat, nat)>)
    ensures var s := if scanFrom < |buf| then scanFrom else |buf|;
      && (r.Some? ==>
            && s <= r.value.0
            && ((r.value.1 == 2 && MatchAt(buf, LF_LF, r.value.0)) || (r.value.1 == 4 && MatchAt(buf, CRLF_CRLF, r.value.0)))
            && forall k: nat | s <= k < r.value.0 :: !TerminatorAt(buf, k))
      && (r.None? ==> forall k: nat | s <= k :: !TerminatorAt(buf, k))
  {
    var s := if scanFrom < |buf| then scanFrom else |buf|;
    FindFromSpec(buf, LF_LF, s);
    FindFromSpec(buf, CRLF_CRLF, s);
    var lf := FindFrom(buf, LF_LF, s);
    var crlf := FindFrom(buf, CRLF_CRLF, s);
    match (lf, crlf)
    case (Some(lfPos), Some(crlfPos)) => if lfPos <= crlfPos then Some((lfPos, 2)) else Some((crlfPos, 4))
    case (Some(lfPos), None) => Some((lfPos, 2))
    case (None, Some(crlfPos)) => Some((crlfPos, 4))
    case (None, None) => None
  }

  /** `find_sse_frame_terminator`. */
  function FindSseFrameTerminator(buf: bytes): (r: Option<(nat, nat)>)
    ensures r.Some? ==> TerminatorAt(buf, r.value.0) && r.value.0 + r.value.1 <= |buf| && forall k: nat | k < r.value.0 :: !TerminatorAt(buf, k)
    ensures r.None? ==> forall k: nat :: !TerminatorAt(buf, k)
  {
    FindSseFrameTerminatorFrom(buf, 0)
  }
}
