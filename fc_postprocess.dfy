/** Response post-processing in inject mode (`src/fc/postprocess.rs`): the
    model's text is searched for the trigger signal, the calls after it are
    parsed and validated, and on success they replace the text as canonical
    tool-call parts. The trigger, the parser's tiers, the validator's
    environment and the argument serialiser are parameters. */
module FcPostprocess {
  import opened Wrappers
  import opened Bytes
  import opened Ints
  import opened JsonValue
  import opened Canonical
  import Util
  import FcParser
  import Validator

  // ---------------------------------------------------------------------
  // Converting parsed calls

  /** How the arguments become raw JSON text: whether the parser's own text
      is valid JSON (`RawValue::from_string`), and how a value is written
      out (`to_raw_value`). */
  datatype ArgsCodec = ArgsCodec(isRawJson: bytes -> bool, serialize: Json -> bytes)

  /** The argument text of a call: the parser's JSON text when it is valid,
      the parsed value written out otherwise. */
  function ArgumentsText(call: FcParser.ParsedToolCall, codec: ArgsCodec): bytes {
    if call.argumentsJson.Some? && codec.isRawJson(call.argumentsJson.value) then call.argumentsJson.value
    else codec.serialize(call.arguments)
  }

  /** Where a call's id comes from: the parser, or the call-id counter at
      the value it had when the call was converted. */
  datatype IdSource = Kept(id: bytes) | Fresh(counter: u64)

  /** The id text: a kept id as it is, a fresh one `call_` and the counter
      in sixteen hex digits (`next_call_id`). */
  function IdText(src: IdSource): bytes {
    match src
    case Kept(id) => id
    case Fresh(n) => "call_" + Util.HexFixed(n, 16)
  }

  /** The ids the calls receive, and the call-id counter afterwards: a
      parsed id is kept, a missing one is drawn from the counter, which
      moves on by one each time. */
  function AssignedIds(calls: seq<FcParser.ParsedToolCall>, next: u64): (r: (seq<IdSource>, u64))
    ensures |r.0| == |calls|
    decreases |calls|
  {
    if |calls| == 0 then ([], next)
    else
      var init := AssignedIds(calls[..|calls| - 1], next);
      var call := calls[|calls| - 1];
      if call.id.Some? then (init.0 + [Kept(call.id.value)], init.1)
      else (init.0 + [Fresh(init.1)], (init.1 + 1) % U64_LIMIT)
  }

  /** A parsed id is reused; a call without one gets a fresh `call_` id of
      sixteen hex digits, the fresh ids drawing consecutive counter values
      in call order; the counter moves only for those. */
  lemma AssignedIdsMeaning(calls: seq<FcParser.ParsedToolCall>, next: u64)
    ensures var r := AssignedIds(calls, next);
      && (forall i | 0 <= i < |calls| :: calls[i].id.Some? ==> r.0[i] == Kept(calls[i].id.value))
      && (forall i | 0 <= i < |calls| :: calls[i].id.None? ==>
            r.0[i].Fresh? && StartsWith(IdText(r.0[i]), "call_") && |IdText(r.0[i])| == 21)
      && ((forall i | 0 <= i < |calls| :: calls[i].id.Some?) ==> r.1 == next)
  {
    ParsedIdsKept(calls, next);
    MissingIdsFresh(calls, next);
    CounterUnmoved(calls, next);
  }

  /** The ids of the calls but the last are those the calls before it get. */
  lemma AssignedIdsInit(calls: seq<FcParser.ParsedToolCall>, next: u64)
    requires |calls| > 0
    ensures var n := |calls| - 1;
      && AssignedIds(calls, next).0[..n] == AssignedIds(calls[..n], next).0
      && (forall i | 0 <= i < n :: calls[..n][i] == calls[i])
  {
  }

  lemma {:induction false} ParsedIdsKept(calls: seq<FcParser.ParsedToolCall>, next: u64)
    ensures var r := AssignedIds(calls, next);
      forall i | 0 <= i < |calls| :: calls[i].id.Some? ==> r.0[i] == Kept(calls[i].id.value)
    decreases |calls|
  {
    if |calls| > 0 {
      var n := |calls| - 1;
      ParsedIdsKept(calls[..n], next);
      AssignedIdsInit(calls, next);
      var r := AssignedIds(calls, next);
      assert forall i | 0 <= i < n :: r.0[i] == r.0[..n][i];
    }
  }

  lemma {:induction false} MissingIdsFresh(calls: seq<FcParser.ParsedToolCall>, next: u64)
    ensures var r := AssignedIds(calls, next);
      forall i | 0 <= i < |calls| :: calls[i].id.None? ==>
        r.0[i].Fresh? && StartsWith(IdText(r.0[i]), "call_") && |IdText(r.0[i])| == 21
    decreases |calls|
  {
    if |calls| > 0 {
      var n := |calls| - 1;
      MissingIdsFresh(calls[..n], next);
      AssignedIdsInit(calls, next);
      var r := AssignedIds(calls, next);
      assert forall i | 0 <= i < n :: r.0[i] == r.0[..n][i];
      FreshIdText(AssignedIds(calls[..n], next).1);
    }
  }

  lemma {:induction false} CounterUnmoved(calls: seq<FcParser.ParsedToolCall>, next: u64)
    ensures (forall i | 0 <= i < |calls| :: calls[i].id.Some?) ==> AssignedIds(calls, next).1 == next
    decreases |calls|
  {
    if |calls| > 0 {
      var n := |calls| - 1;
      CounterUnmoved(calls[..n], next);
      AssignedIdsInit(calls, next);
    }
  }

  /** A fresh id is `call_` and sixteen hex digits. */
  lemma FreshIdText(counter: u64)
    ensures StartsWith(IdText(Fresh(counter)), "call_") && |IdText(Fresh(counter))| == 21
  {
    var id := IdText(Fresh(counter));
    assert id[..5] == "call_";
  }

  /** Two calls without a parsed id get different ids, as long as the
      counter does not wrap around between them. */
  lemma {:induction false} FreshIdsDistinct(calls: seq<FcParser.ParsedToolCall>, next: u64)
    requires next as int + |calls| < U64_LIMIT
    ensures var r := AssignedIds(calls, next);
      (forall i | 0 <= i < |calls| :: r.0[i].Fresh? ==> next <= r.0[i].counter < r.1)
      && next <= r.1 <= next + |calls|
      && forall i, j | 0 <= i < j < |calls| :: r.0[i].Fresh? && r.0[j].Fresh? ==> r.0[i].counter < r.0[j].counter
    decreases |calls|
  {
    if |calls| > 0 {
      var n := |calls| - 1;
      FreshIdsDistinct(calls[..n], next);
    }
  }

  /** One more call: its id is appended, drawn from the counter when the
      call has none. */
  lemma AssignedIdsStep(calls: seq<FcParser.ParsedToolCall>, i: nat, next: u64)
    requires i < |calls|
    ensures var init := AssignedIds(calls[..i], next);
      AssignedIds(calls[..i + 1], next)
        == if calls[i].id.Some? then (init.0 + [Kept(calls[i].id.value)], init.1)
           else (init.0 + [Fresh(init.1)], (init.1 + 1) % U64_LIMIT)
  {
    var c := calls[..i + 1];
    assert c[..|c| - 1] == calls[..i];
  }

  /** `parsed_to_canonical_tool_call` for every call, with the ids given. */
  function ToolParts(calls: seq<FcParser.ParsedToolCall>, ids: seq<IdSource>, codec: ArgsCodec): (r: seq<Part>)
    requires |ids| == |calls|
    ensures |r| == |calls|
  {
    seq(|calls|, i requires 0 <= i < |calls| => ToolCall(IdText(ids[i]), calls[i].name, ArgumentsText(calls[i], codec)))
  }

  /** One tool-call part per call, in order, each with its call's name. */
  lemma ToolPartsNamed(calls: seq<FcParser.ParsedToolCall>, ids: seq<IdSource>, codec: ArgsCodec)
    requires |ids| == |calls|
    ensures |ToolParts(calls, ids, codec)| == |calls|
    ensures forall i | 0 <= i < |calls| ::
      ToolParts(calls, ids, codec)[i].ToolCall? && ToolParts(calls, ids, codec)[i].name == calls[i].name
  {
  }

  lemma ToolPartsStep(calls: seq<FcParser.ParsedToolCall>, ids: seq<IdSource>, id: IdSource, codec: ArgsCodec, i: nat)
    requires |ids| == i < |calls|
    ensures ToolParts(calls[..i + 1], ids + [id], codec)
      == ToolParts(calls[..i], ids, codec) + [ToolCall(IdText(id), calls[i].name, ArgumentsText(calls[i], codec))]
  {
  }

  /** One more call: its id source extends the assigned ids, and its part
      the converted parts. */
  lemma ConvertStep(calls: seq<FcParser.ParsedToolCall>, ids: seq<IdSource>, src: IdSource, codec: ArgsCodec,
                    i: nat, next: u64, before: u64, after: u64)
    requires i < |calls| && ids == AssignedIds(calls[..i], next).0 && before == AssignedIds(calls[..i], next).1
    requires calls[i].id.Some? ==> src == Kept(calls[i].id.value) && after == before
    requires calls[i].id.None? ==> src == Fresh(before) && after == (before + 1) % U64_LIMIT
    ensures ids + [src] == AssignedIds(calls[..i + 1], next).0 && after == AssignedIds(calls[..i + 1], next).1
    ensures ToolParts(calls[..i + 1], ids + [src], codec)
      == ToolParts(calls[..i], ids, codec) + [ToolCall(IdText(src), calls[i].name, ArgumentsText(calls[i], codec))]
  {
    AssignedIdsStep(calls, i, next);
    assert AssignedIds(calls[..i + 1], next) == (ids + [src], after);
    ToolPartsStep(calls, ids, src, codec, i);
  }

  /** `next_call_id`, seen as the id source it stands for. */
  method DrawId(counter: Util.CallIdCounter) returns (id: bytes)
    modifies counter
    ensures id == IdText(Fresh(old(counter.next)))
    ensures counter.next == (old(counter.next) + 1) % U64_LIMIT
  {
    id := counter.NextCallId();
  }

  /** The id of one call: its parsed id, or one drawn from the counter. */
  method CallId(call: FcParser.ParsedToolCall, counter: Util.CallIdCounter) returns (id: bytes, ghost src: IdSource)
    modifies counter
    ensures id == IdText(src)
    ensures call.id.Some? ==> src == Kept(call.id.value) && counter.next == old(counter.next)
    ensures call.id.None? ==> src == Fresh(old(counter.next)) && counter.next == (old(counter.next) + 1) % U64_LIMIT
  {
    if call.id.Some? {
      id := call.id.value;
      src := Kept(id);
    } else {
      src := Fresh(counter.next);
      id := DrawId(counter);
    }
  }

  /** One round of `ConvertCalls`: call `i` joins the parts, with its id. */
  method ConvertOne(calls: seq<FcParser.ParsedToolCall>, i: nat, codec: ArgsCodec, counter: Util.CallIdCounter,
                    parts: seq<Part>, ghost ids: seq<IdSource>, ghost next0: u64)
    returns (parts': seq<Part>, ghost ids': seq<IdSource>)
    modifies counter
    requires i < |calls|
    requires ids == AssignedIds(calls[..i], next0).0 && counter.next == AssignedIds(calls[..i], next0).1
    requires parts == ToolParts(calls[..i], ids, codec)
    ensures ids' == AssignedIds(calls[..i + 1], next0).0 && counter.next == AssignedIds(calls[..i + 1], next0).1
    ensures parts' == ToolParts(calls[..i + 1], ids', codec)
  {
    ghost var before := counter.next;
    ghost var src;
    var id;
    id, src := CallId(calls[i], counter);
    ConvertStep(calls, ids, src, codec, i, next0, before, counter.next);
    ids' := ids + [src];
    parts' := parts + [ToolCall(id, calls[i].name, ArgumentsText(calls[i], codec))];
  }

  /** The canonical parts of all calls, in order, drawing ids from the
      counter for the calls that have none. */
  method ConvertCalls(calls: seq<FcParser.ParsedToolCall>, codec: ArgsCodec, counter: Util.CallIdCounter)
    returns (parts: seq<Part>)
    modifies counter
    ensures var ids := AssignedIds(calls, old(counter.next));
      parts == ToolParts(calls, ids.0, codec) && counter.next == ids.1
  {
    parts := [];
    ghost var next0 := counter.next;
    ghost var ids: seq<IdSource> := [];
    var i := 0;
    while i < |calls|
      invariant i <= |calls|
      invariant ids == AssignedIds(calls[..i], next0).0 && counter.next == AssignedIds(calls[..i], next0).1
      invariant parts == ToolParts(calls[..i], ids, codec)
    {
      parts, ids := ConvertOne(calls, i, codec, counter, parts, ids, next0);
      i := i + 1;
    }
    assert calls[..i] == calls;
  }

  // ---------------------------------------------------------------------
  // Deciding on a response text

  /** Why a text with the trigger did not give calls: the parser's error,
      or the validator's errors (joined with "; " in the source). */
  datatype Failure = ParseFailed(error: FcParser.ParseError) | Invalid(errors: seq<Validator.ValidationError>)

  /** `FcResult`. */
  datatype FcResult =
    | ToolCallsFound(toolParts: seq<Part>, textBefore: Option<bytes>)
    | NoToolCalls
    | ParseFailure(triggerFound: bool, error: Failure, originalText: bytes)

  /** The text before the trigger, trimmed, when anything is left. */
  function TextBefore(text: bytes, pos: nat): (r: Option<bytes>)
    requires pos <= |text|
    ensures r.Some? ==> r.value != [] && !IsTrimWs(r.value[0]) && !IsTrimWs(r.value[|r.value| - 1])
    ensures r.Some? ==> Contains(text[..pos], r.value)
    ensures r.None? ==> forall k | 0 <= k < pos :: IsTrimWs(text[k])
  {
    var prefix := text[..pos];
    var s := TrimStart(prefix);
    var t := TrimEnd(s);
    var lead := |prefix| - |s|;
    assert t == prefix[lead..lead + |t|] by {
      assert s == prefix[lead..];
      assert t == s[..|t|];
    }
    if t == [] then
      assert forall k | 0 <= k < pos :: IsTrimWs(prefix[k]) by {
        BlankIsTrimEmpty(prefix);
      }
      None
    else
      assert MatchAt(prefix, t, lead);
      ContainsIff(prefix, t);
      Some(t)
  }

  /** The calls read from a text, and whether they pass validation. */
  function Verdict(calls: seq<FcParser.ParsedToolCall>, tools: seq<ToolSpec>, env: Validator.Env)
    : Result<(), seq<Validator.ValidationError>>
  {
    Validator.CallsVerdict(seq(|calls|, i requires 0 <= i < |calls| => Validator.FromParser(calls[i])), tools, env)
  }

  /** What `process_fc_response` returns for `text`, and the call-id
      counter afterwards. */
  function ProcessSpec(text: bytes, trig: bytes, tiers: FcParser.Tiers, tools: seq<ToolSpec>, env: Validator.Env,
                       codec: ArgsCodec, next: u64): (FcResult, u64)
  {
    match Find(text, trig)
    case None => (NoToolCalls, next)
    case Some(pos) =>
      match FcParser.ParseSpec(text, trig, tiers)
      case Err(e) => (ParseFailure(true, ParseFailed(e), text), next)
      case Ok(calls) =>
        match Verdict(calls, tools, env)
        case Err(errs) => (ParseFailure(true, Invalid(errs), text), next)
        case Ok(_) =>
          var ids := AssignedIds(calls, next);
          (ToolCallsFound(ToolParts(calls, ids.0, codec), TextBefore(text, pos)), ids.1)
  }

  /** A text without the trigger has no calls and nothing else does; a
      failure keeps the whole text; found calls are never none, and each
      names a declared tool. */
  lemma ProcessSpecMeaning(text: bytes, trig: bytes, tiers: FcParser.Tiers, tools: seq<ToolSpec>, env: Validator.Env,
                           codec: ArgsCodec, next: u64)
    ensures var r := ProcessSpec(text, trig, tiers, tools, env, codec, next).0;
      && (r.NoToolCalls? <==> !Contains(text, trig))
      && (r.ParseFailure? ==> r.triggerFound && r.originalText == text)
      && (r.ToolCallsFound? ==>
            |r.toolParts| > 0
            && forall i | 0 <= i < |r.toolParts| ::
                 r.toolParts[i].ToolCall? && exists k | 0 <= k < |tools| :: tools[k].name == r.toolParts[i].name)
  {
    var r := ProcessSpec(text, trig, tiers, tools, env, codec, next).0;
    if r.ToolCallsFound? {
      var calls := FcParser.ParseSpec(text, trig, tiers).value;
      var vcalls := seq(|calls|, i requires 0 <= i < |calls| => Validator.FromParser(calls[i]));
      Validator.CallsVerdictOk(vcalls, tools, env);
      forall i | 0 <= i < |r.toolParts|
        ensures exists k | 0 <= k < |tools| :: tools[k].name == r.toolParts[i].name
      {
        Validator.ValidateToolCallMeaning(vcalls[i].name, vcalls[i].arguments, tools, env);
        Validator.FindToolIsFirst(tools, vcalls[i].name);
      }
    }
  }

  /** `process_fc_response`. */
  method ProcessFcResponse(text: bytes, trig: bytes, tiers: FcParser.Tiers, tools: seq<ToolSpec>,
                           env: Validator.Env, codec: ArgsCodec, counter: Util.CallIdCounter)
    returns (r: FcResult)
    modifies counter
    ensures (r, counter.next) == ProcessSpec(text, trig, tiers, tools, env, codec, old(counter.next))
  {
    var pos := Find(text, trig);
    if pos.None? {
      return NoToolCalls;
    }
    var parsed := FcParser.ParseFunctionCalls(text, trig, tiers);
    if parsed.Err? {
      return ParseFailure(true, ParseFailed(parsed.error), text);
    }
    var verdict := Validator.ValidateParserToolCalls(parsed.value, tools, env);
    if verdict.Err? {
      return ParseFailure(true, Invalid(verdict.error), text);
    }
    var parts := ConvertCalls(parsed.value, codec, counter);
    r := ToolCallsFound(parts, TextBefore(text, pos.value));
  }

  // ---------------------------------------------------------------------
  // The text of a response

  /** The texts of the Text parts, in order. */
  function TextParts(content: seq<Part>): (r: seq<bytes>)
    ensures |r| <= |content|
    decreases |content|
  {
    if |content| == 0 then []
    else
      var init := TextParts(content[..|content| - 1]);
      match content[|content| - 1]
      case Text(t) => init + [t]
      case _ => init
  }

  function Concat(texts: seq<bytes>): bytes
    decreases |texts|
  {
    if |texts| == 0 then [] else Concat(texts[..|texts| - 1]) + texts[|texts| - 1]
  }

  /** The join of one more text. */
  lemma ConcatPrefixStep(texts: seq<bytes>, i: nat)
    requires i < |texts|
    ensures Concat(texts[..i + 1]) == Concat(texts[..i]) + texts[i]
  {
    assert texts[..i + 1][..i] == texts[..i];
  }

  /** All Text parts joined, nothing else. */
  function ResponseText(content: seq<Part>): bytes {
    Concat(TextParts(content))
  }

  lemma {:induction false} TextPartsAppend(a: seq<Part>, b: seq<Part>)
    ensures TextParts(a + b) == TextParts(a) + TextParts(b)
    decreases |b|
  {
    if |b| > 0 {
      var b' := b[..|b| - 1];
      assert (a + b)[..|a + b| - 1] == a + b';
      TextPartsAppend(a, b');
    } else {
      assert a + b == a;
    }
  }

  lemma {:induction false} ConcatAppend(a: seq<bytes>, b: seq<bytes>)
    ensures Concat(a + b) == Concat(a) + Concat(b)
    decreases |b|
  {
    if |b| > 0 {
      var b' := b[..|b| - 1];
      assert (a + b)[..|a + b| - 1] == a + b';
      ConcatAppend(a, b');
    } else {
      assert a + b == a;
    }
  }

  /** The response text of two runs of parts is their texts joined; a part
      that is not text adds nothing, a text part adds its text. */
  lemma ResponseTextAppend(a: seq<Part>, b: seq<Part>)
    ensures ResponseText(a + b) == ResponseText(a) + ResponseText(b)
    ensures forall p: Part :: ResponseText([p]) == (if p.Text? then p.text else [])
  {
    TextPartsAppend(a, b);
    ConcatAppend(TextParts(a), TextParts(b));
    forall p: Part ensures ResponseText([p]) == (if p.Text? then p.text else []) {
      assert [p][..0] == [];
      if p.Text? {
        assert [p.text][..0] == [];
        assert Concat([p.text]) == Concat([]) + p.text;
      }
    }
  }

  /** `extract_response_text`. */
  method ExtractResponseText(content: seq<Part>) returns (text: bytes)
    ensures text == ResponseText(content)
  {
    text := [];
    var i := 0;
    while i < |content|
      invariant i <= |content|
      invariant text == ResponseText(content[..i])
    {
      assert content[..i + 1] == content[..i] + [content[i]];
      ResponseTextAppend(content[..i], [content[i]]);
      if content[i].Text? {
        text := text + content[i].text;
      }
      i := i + 1;
    }
    assert content[..i] == content;
  }

  // ---------------------------------------------------------------------
  // Looking for the trigger

  /** `response_text_contains_trigger`: the first byte of the trigger is
      looked for, the trigger is tried there and then searched for after
      it. It is a plain substring test, false for an empty trigger. */
  function ResponseTextContainsTrigger(s: bytes, trig: bytes): (r: bool)
    ensures r <==> trig != [] && Contains(s, trig)
  {
    if trig == [] then false
    else if |s| < |trig| then
      assert !Contains(s, trig) by { ContainsIff(s, trig); }
      false
    else
      match FindByte(s, trig[0], 0)
      case None =>
        assert !Contains(s, trig) by {
          ContainsIff(s, trig);
          forall k: nat ensures !MatchAt(s, trig, k) {
            if k + |trig| <= |s| { assert s[k..k + |trig|][0] == s[k]; }
          }
        }
        false
      case Some(f) =>
        var candidate := s[f..];
        if |candidate| >= |trig| && candidate[..|trig|] == trig then
          assert MatchAt(s, trig, f);
          ContainsIff(s, trig);
          true
        else
          ContainsFrom(s, trig, f);
          if |candidate| <= 1 then false
          else Contains(candidate[1..], trig)
  }

  /** A match at `k` of a slice from `w` is a match at `k + w`. */
  lemma ShiftMatch(s: bytes, w: nat, trig: bytes, k: nat)
    requires w <= |s|
    ensures MatchAt(s[w..], trig, k) <==> MatchAt(s, trig, k + w)
  {
    if k + w + |trig| <= |s| {
      assert s[w..][k..k + |trig|] == s[k + w..k + w + |trig|];
    }
  }

  /** If no match starts before `w`, the text contains the trigger exactly
      when its part from `w` does. */
  lemma ContainsAfterNone(s: bytes, w: nat, trig: bytes)
    requires w <= |s|
    requires forall k: nat | k < w :: !MatchAt(s, trig, k)
    ensures Contains(s, trig) <==> Contains(s[w..], trig)
  {
    ContainsIff(s, trig);
    ContainsIff(s[w..], trig);
    if Contains(s, trig) {
      var k: nat :| MatchAt(s, trig, k);
      ShiftMatch(s, w, trig, k - w);
    }
    if Contains(s[w..], trig) {
      var k: nat :| MatchAt(s[w..], trig, k);
      ShiftMatch(s, w, trig, k);
    }
  }

  /** With no match at or before the first occurrence of the trigger's
      first byte, the trigger is in the text exactly when it is after it,
      and not at all when nothing follows that byte. */
  lemma ContainsFrom(s: bytes, trig: bytes, f: nat)
    requires trig != [] && f < |s| && s[f] == trig[0]
    requires forall k | 0 <= k < f :: s[k] != trig[0]
    requires !MatchAt(s, trig, f)
    ensures |s| - f <= 1 ==> !Contains(s, trig)
    ensures |s| - f > 1 ==> (Contains(s, trig) <==> Contains(s[f..][1..], trig))
  {
    forall k: nat | k < f + 1 ensures !MatchAt(s, trig, k) {
      if k < f && k + |trig| <= |s| {
        assert s[k..k + |trig|][0] == s[k];
      }
    }
    ContainsAfterNone(s, f + 1, trig);
    assert s[f..][1..] == s[f + 1..];
    if |s| - f <= 1 {
      ContainsIff(s[f + 1..], trig);
    }
  }

  /** How far back the search reaches into what was already there:
      `trigger.len().saturating_sub(1)` bytes. */
  function Overlap(trig: bytes): nat {
    if |trig| > 0 then |trig| - 1 else 0
  }

  /** Where the search restarts after appending to a text without the
      trigger (`saturating_sub`). */
  function WindowStart(len: nat, trig: bytes): (r: nat)
    ensures r <= len
  {
    if len >= Overlap(trig) then len - Overlap(trig) else 0
  }

  /** A match lying wholly inside the first part is a match there. */
  lemma MatchInPrefix(a: bytes, b: bytes, trig: bytes, k: nat)
    requires k + |trig| <= |a|
    ensures MatchAt(a + b, trig, k) <==> MatchAt(a, trig, k)
  {
    assert (a + b)[k..k + |trig|] == a[k..k + |trig|];
  }

  /** Appending to a text without the trigger, the trigger is in the result
      exactly when it is in the part from the window on: a match that
      started earlier would lie wholly inside the old text. */
  lemma WindowSearch(a: bytes, b: bytes, trig: bytes)
    requires trig != [] && !Contains(a, trig)
    ensures Contains(a + b, trig) <==> Contains((a + b)[WindowStart(|a|, trig)..], trig)
  {
    var w := WindowStart(|a|, trig);
    ContainsIff(a, trig);
    forall k: nat | k < w ensures !MatchAt(a + b, trig, k) {
      MatchInPrefix(a, b, trig, k);
    }
    ContainsAfterNone(a + b, w, trig);
  }

  /** One more text appended to the merged text, searching only the window
      while the trigger has not been seen. */
  method AppendAndSearch(merged: bytes, found: bool, part: bytes, trig: bytes)
    returns (merged': bytes, found': bool)
    requires trig != [] && (found <==> Contains(merged, trig))
    ensures merged' == merged + part
    ensures found' <==> Contains(merged', trig)
  {
    if found {
      merged' := merged + part;
      found' := true;
      ContainsIff(merged, trig);
      var k: nat :| MatchAt(merged, trig, k);
      MatchInPrefix(merged, part, trig, k);
      ContainsIff(merged', trig);
    } else {
      var start := WindowStart(|merged|, trig);
      merged' := merged + part;
      found' := Contains(merged'[start..], trig);
      WindowSearch(merged, part, trig);
    }
  }

  /** `extract_response_text_if_trigger`: the response text when the
      trigger occurs in it, even across the boundary of two parts. */
  method ExtractResponseTextIfTrigger(content: seq<Part>, trig: bytes) returns (r: Option<bytes>)
    requires trig != []
    ensures r.Some? <==> Contains(ResponseText(content), trig)
    ensures r.Some? ==> r.value == ResponseText(content)
  {
    var texts := TextParts(content);
    if |texts| == 0 {
      assert ResponseText(content) == [];
      ContainsIff([], trig);
      return None;
    }
    ConcatPrefixStep(texts, 0);
    assert texts[..0] == [];
    assert Concat(texts[..1]) == texts[0];
    if |texts| == 1 {
      assert texts[..1] == texts;
      assert ResponseText(content) == texts[0];
      if ResponseTextContainsTrigger(texts[0], trig) {
        return Some(texts[0]);
      }
      return None;
    }
    var merged := texts[0];
    var found := ResponseTextContainsTrigger(merged, trig);
    var i := 1;
    while i < |texts|
      invariant 1 <= i <= |texts|
      invariant merged == Concat(texts[..i])
      invariant found <==> Contains(merged, trig)
    {
      ConcatPrefixStep(texts, i);
      merged, found := AppendAndSearch(merged, found, texts[i], trig);
      i := i + 1;
    }
    assert texts[..i] == texts;
    if found {
      return Some(merged);
    }
    return None;
  }

  // ---------------------------------------------------------------------
  // One-shot post-processing

  /** The text before the trigger as a part, when there is any. */
  function LeadingText(textBefore: Option<bytes>): seq<Part> {
    if textBefore.Some? then [Text(textBefore.value)] else []
  }

  /** What `apply_fc_postprocess_once` leaves in the response, and the
      call-id counter afterwards. The guard against zero tool parts is not
      here: a successful parse holds at least one call. */
  function PostprocessOnceSpec(response: Response, trig: bytes, tiers: FcParser.Tiers, tools: seq<ToolSpec>,
                               env: Validator.Env, codec: ArgsCodec, next: u64): (Response, u64)
    requires trig != []
  {
    var text := ResponseText(response.content);
    if !Contains(text, trig) then (response, next)
    else
      match FcParser.ParseSpec(text, trig, tiers)
      case Err(_) => (response, next)
      case Ok(calls) =>
        if Verdict(calls, tools, env).Err? then (response, next)
        else
          var ids := AssignedIds(calls, next);
          var pos := Find(text, trig).value;
          (response.(content := LeadingText(TextBefore(text, pos)) + ToolParts(calls, ids.0, codec),
                     stopReason := ToolCalls), ids.1)
  }

  /** The one-shot path agrees with `process_fc_response` on the response
      text: it changes the response exactly when that finds calls, and then
      the content is the text before the trigger, if any, followed by the
      same tool parts, and the stop reason is tool calls. */
  lemma PostprocessAgreesWithProcess(response: Response, trig: bytes, tiers: FcParser.Tiers, tools: seq<ToolSpec>,
                                     env: Validator.Env, codec: ArgsCodec, next: u64)
    requires trig != []
    ensures var text := ResponseText(response.content);
      var (after, n) := PostprocessOnceSpec(response, trig, tiers, tools, env, codec, next);
      var (r, m) := ProcessSpec(text, trig, tiers, tools, env, codec, next);
      n == m
      && (r.ToolCallsFound? ==>
            after == response.(content := LeadingText(r.textBefore) + r.toolParts, stopReason := ToolCalls))
      && (!r.ToolCallsFound? ==> after == response)
  {
  }

  /** `apply_fc_postprocess_once` on a response held by the caller. */
  method ApplyFcPostprocessOnce(response: Response, trig: bytes, tiers: FcParser.Tiers, tools: seq<ToolSpec>,
                                env: Validator.Env, codec: ArgsCodec, counter: Util.CallIdCounter)
    returns (after: Response)
    requires trig != []
    modifies counter
    ensures (after, counter.next) == PostprocessOnceSpec(response, trig, tiers, tools, env, codec, old(counter.next))
  {
    after := response;
    var text := ExtractResponseTextIfTrigger(after.content, trig);
    if text.None? {
      return;
    }
    var parsed := FcParser.ParseFunctionCalls(text.value, trig, tiers);
    if parsed.Err? {
      return;
    }
    var verdict := Validator.ValidateParserToolCalls(parsed.value, tools, env);
    if verdict.Err? {
      return;
    }
    var toolParts := ConvertCalls(parsed.value, codec, counter);
    var pos := Find(text.value, trig);
    var textBefore := TextBefore(text.value, pos.value);
    var newContent := LeadingText(textBefore) + toolParts;
    after := after.(content := newContent);
    after := after.(stopReason := ToolCalls);
  }
}
