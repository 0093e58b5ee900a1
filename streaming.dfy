/** The byte-level helpers shared by the streaming handlers: the queue of
    frame chunks still to be sent (`PendingBytes`), the choice of the next
    chunk to emit, the fast reader of an OpenAI `data:` frame and the cheap
    test of whether a frame might open a function call. */
module Streaming {
  import opened Wrappers
  import opened Bytes
  import Sse
  import StreamFrame

  // ---------------------------------------------------------------------
  // The queue of pending chunks
  // ---------------------------------------------------------------------

  /** `PendingBytes`: the chunks in `chunks[head..]` are still queued, oldest
      first; the ones before `head` have been taken (left empty). */
  class PendingBytes {
    var chunks: seq<bytes>
    var head: nat

    /** Either something is queued, or the buffer has been reset. */
    predicate Valid()
      reads this
    {
      head < |chunks| || (head == 0 && chunks == [])
    }

    /** The chunks still queued, oldest first. */
    function Contents(): seq<bytes>
      reads this
      requires Valid()
    {
      chunks[head..]
    }

    /** `with_capacity`: an empty queue (the capacity is only a reservation). */
    constructor WithCapacity(capacity: nat)
      ensures Valid() && Contents() == []
    {
      chunks := [];
      head := 0;
    }

    /** `pop_front`: take the oldest queued chunk; once the last one is
        taken, the buffer is cleared and `head` reset. */
    method PopFront() returns (r: Option<bytes>)
      requires Valid()
      modifies this
      ensures Valid()
      ensures old(Contents()) == [] ==> r.None? && Contents() == []
      ensures old(Contents()) != [] ==>
        r == Some(old(Contents())[0]) && Contents() == old(Contents())[1..]
    {
      if head >= |chunks| {
        return None;
      }
      var chunk := chunks[head];
      chunks := chunks[head := []];
      head := head + 1;
      if head == |chunks| {
        chunks := [];
        head := 0;
      }
      r := Some(chunk);
    }

    /** `extend_from_bytes`: queue all of `frameChunks` after what is already
        queued, leaving `frameChunks` drained (returned as `drained`). */
    method ExtendFromBytes(frameChunks: seq<bytes>) returns (drained: seq<bytes>)
      requires Valid()
      modifies this
      ensures Valid()
      ensures Contents() == old(Contents()) + frameChunks
      ensures drained == []
    {
      drained := [];
      if |frameChunks| == 0 {
        return;
      }
      chunks := chunks + frameChunks;
    }
  }

  /** A valid queue with nothing in it holds no taken chunks either. */
  lemma {:induction false} DrainedIsReset(p: PendingBytes)
    requires p.Valid()
    ensures p.Contents() == [] <==> p.chunks == [] && p.head == 0
  {
  }

  /** The chunk a call emits, as a sequence of zero or one chunks. */
  function Emitted(r: Option<bytes>): (out: seq<bytes>)
    ensures |out| <= 1
    ensures r.Some? <==> |out| == 1
    ensures r.Some? ==> out[0] == r.value
  {
    match r
    case None => []
    case Some(c) => [c]
  }

  /** `emit_from_byte_chunks`: no chunk emits nothing; a single chunk is
      emitted directly, without going through the queue; several chunks are
      queued behind what is already pending and the oldest pending chunk is
      emitted. `frameChunks` is left drained in every case (`rest`). When
      nothing was pending, which is how every caller uses it, the emitted
      chunk followed by the new queue is exactly `frameChunks`. */
  method EmitFromByteChunks(frameChunks: seq<bytes>, pending: PendingBytes)
    returns (r: Option<bytes>, rest: seq<bytes>)
    requires pending.Valid()
    modifies pending
    ensures pending.Valid()
    ensures rest == []
    ensures |frameChunks| == 0 ==> r.None? && pending.Contents() == old(pending.Contents())
    ensures |frameChunks| == 1 ==>
      r == Some(frameChunks[0]) && pending.Contents() == old(pending.Contents())
    ensures |frameChunks| >= 2 ==>
      var queue := old(pending.Contents()) + frameChunks;
      r == Some(queue[0]) && pending.Contents() == queue[1..]
    ensures old(pending.Contents()) == [] ==> Emitted(r) + pending.Contents() == frameChunks
  {
    if |frameChunks| == 0 {
      r, rest := None, [];
    } else if |frameChunks| == 1 {
      r, rest := Some(frameChunks[0]), [];
    } else {
      rest := pending.ExtendFromBytes(frameChunks);
      r := pending.PopFront();
    }
  }

  // ---------------------------------------------------------------------
  // The fast reader of an OpenAI data frame
  // ---------------------------------------------------------------------

  /** `parse_openai_raw_sse_data_bounds`: for a frame that is one `data:`
      line and its terminator, the bounds of the value (after one optional
      space); `None` when the value holds a CR or LF or the frame has
      another shape. The bounds are always in order, so slicing with them
      cannot fail. */
  function OpenAiRawSseDataBounds(raw: bytes): (r: Option<(nat, nat)>)
    ensures r.Some? ==> 5 <= r.value.0 <= r.value.1 <= |raw|
    ensures r.Some? ==> StartsWith(raw, Sse.DATA_FIELD)
    ensures r.Some? ==> StreamFrame.FramePayloadEnd(raw) == Some(r.value.1)
  {
    match StreamFrame.FramePayloadEnd(raw)
    case None => None
    case Some(end) =>
      if end < 5 || !StartsWith(raw[..end], Sse.DATA_FIELD) then None
      else
        TerminatorAfterPayload(raw, end);
        var start := if raw[5] == ' ' then 6 else 5;
        var d := raw[start..end];
        if HasByte(d, '\n') || HasByte(d, '\r') then None
        else Some((start, end))
  }

  /** The byte right after the payload starts the terminator, so it is not a
      space: the value of a `data:` line never starts past its end. */
  lemma {:induction false} TerminatorAfterPayload(raw: bytes, end: nat)
    requires StreamFrame.FramePayloadEnd(raw) == Some(end)
    ensures end < |raw| && (raw[end] == '\r' || raw[end] == '\n')
  {
    if EndsWith(raw, StreamFrame.CRLF_CRLF) {
      assert raw[end] == raw[|raw| - 4..][0];
    } else {
      assert raw[end] == raw[|raw| - 2..][0];
    }
  }

  /** `parse_openai_raw_sse_data_bytes`: the value those bounds delimit. */
  function OpenAiRawSseDataBytes(raw: bytes): (r: Option<bytes>)
    ensures r.Some? ==> !HasByte(r.value, '\n') && !HasByte(r.value, '\r')
  {
    match OpenAiRawSseDataBounds(raw)
    case None => None
    case Some((start, end)) => Some(raw[start..end])
  }

  /** The fast reader agrees with `try_parse_data_only_sse_frame`: it
      accepts exactly the frames that reader accepts, and reads the same
      value from them. */
  lemma {:induction false} DataBytesAgree(raw: bytes)
    ensures OpenAiRawSseDataBytes(raw).Some? <==> StreamFrame.TryParseDataOnly(raw).Some?
    ensures OpenAiRawSseDataBytes(raw).Some? ==>
      OpenAiRawSseDataBytes(raw).value == StreamFrame.TryParseDataOnly(raw).value.data
  {
    match StreamFrame.FramePayloadEnd(raw)
    case None =>
    case Some(end) =>
      if end >= 5 {
        assert Sse.DATA_FIELD == "data:";
        PrefixWithin(raw, end, Sse.DATA_FIELD);
        TerminatorAfterPayload(raw, end);
      }
  }

  /** A prefix no longer than `end` is a prefix of `raw[..end]` exactly when
      it is a prefix of `raw`. */
  lemma {:induction false} PrefixWithin(raw: bytes, end: nat, p: bytes)
    requires |p| <= end <= |raw|
    ensures StartsWith(raw[..end], p) <==> StartsWith(raw, p)
  {
    assert raw[..end][..|p|] == raw[..|p|];
  }

  // ---------------------------------------------------------------------
  // Might this frame open a function call?
  // ---------------------------------------------------------------------

  /** `FUNCTION_CALLS_OPEN_TAG_BYTES`. */
  const FUNCTION_CALLS_OPEN_TAG: bytes := "<function_calls>"

  /** `text_contains_fc_patterns_bytes`: the text holds the opening tag of a
      call block or the trigger signal. (The cached finder used for the
      process-wide trigger searches for the same needle.) */
  predicate TextContainsFcPatterns(text: bytes, trigger: bytes)
  {
    Contains(text, FUNCTION_CALLS_OPEN_TAG) || Contains(text, trigger)
  }

  /** `frame_might_start_fc_with_parsed_bytes`: with the parsed data of the
      frame, a cheap check for a `<` first, then the pattern search in the
      data; without it, the pattern search in the raw frame. */
  function FrameMightStartFc(raw: bytes, parsed: Option<bytes>, trigger: bytes): (r: bool)
    ensures parsed.Some? && r ==> HasByte(parsed.value, '<')
    ensures r ==> TextContainsFcPatterns(if parsed.Some? then parsed.value else raw, trigger)
  {
    match parsed
    case Some(data) => HasByte(data, '<') && TextContainsFcPatterns(data, trigger)
    case None => TextContainsFcPatterns(raw, trigger)
  }

  /** A match of `p` inside `s` puts every byte of `p` in `s`. */
  lemma {:induction false} ContainsHasByte(s: bytes, p: bytes, k: nat)
    requires Contains(s, p) && k < |p|
    ensures HasByte(s, p[k])
  {
    var i := Find(s, p).value;
    assert MatchAt(s, p, i);
    assert s[i + k] == s[i..i + |p|][k];
  }

  /** The `<` check loses nothing as long as the trigger signal holds a `<`
      (the gateway's trigger signal starts with one): for parsed data the
      answer is exactly whether the data holds either pattern. */
  lemma {:induction false} LtPrefilterIsExact(raw: bytes, data: bytes, trigger: bytes)
    requires HasByte(trigger, '<')
    ensures FrameMightStartFc(raw, Some(data), trigger) <==> TextContainsFcPatterns(data, trigger)
  {
    if TextContainsFcPatterns(data, trigger) {
      if Contains(data, FUNCTION_CALLS_OPEN_TAG) {
        ContainsHasByte(data, FUNCTION_CALLS_OPEN_TAG, 0);
      } else {
        var k :| 0 <= k < |trigger| && trigger[k] == '<';
        ContainsHasByte(data, trigger, k);
      }
    }
  }

  /** Without the `<` in the trigger the prefilter can reject a frame whose data
      holds the trigger: the cheap test relies on the trigger's shape. */
  lemma {:induction false} LtPrefilterNeedsLtInTrigger()
    ensures !FrameMightStartFc([], Some("X"), "X")
    ensures TextContainsFcPatterns("X", "X")
  {
    assert !HasByte("X", '<') by {
      assert "X"[0] == 'X';
    }
    assert MatchAt("X", "X", 0);
  }
}
