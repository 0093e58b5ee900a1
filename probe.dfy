/** The request probe (`src/api/common/probe.rs`): reads `model`, `stream`
    and whether `tools` has items from a request body without a full JSON
    parse, by locating the value ranges of a few top-level fields, and
    rewrites the `model` value in place. */
module Probe {
  import opened Wrappers
  import opened Bytes
  import opened Errors
  import opened JsonScan
  import Util

  const MODEL: bytes := "model"
  const STREAM: bytes := "stream"
  const TOOLS: bytes := "tools"
  const TOOL_CHOICE: bytes := "tool_choice"
  const MESSAGES: bytes := "messages"

  /** The literals whose presence anywhere sends a body past the fast probe. */
  const QUOTED_STREAM: bytes := "\"stream\""
  const QUOTED_TOOLS: bytes := "\"tools\""

  /** A value range `[start, end)` of the body. */
  type Range = (nat, nat)

  /** `CommonProbeRanges` (without the cache key). */
  datatype ProbeRanges = ProbeRanges(
    model: Option<Range>,
    stream: Option<Range>,
    tools: Option<Range>,
    toolChoice: Option<Range>,
    messages: Option<Range>)

  const NO_RANGES: ProbeRanges := ProbeRanges(None, None, None, None, None)

  /** `CommonRequestProbe`. */
  datatype CommonRequestProbe = CommonRequestProbe(
    model: bytes,
    stream: Option<bool>,
    hasTools: bool,
    ranges: Option<ProbeRanges>)

  // ---------------------------------------------------------------------
  // The field-range scan

  /** The range recorded for `field`, one of the five probed keys. */
  function FieldOf(p: ProbeRanges, field: bytes): Option<Range> {
    if field == MODEL then p.model
    else if field == STREAM then p.stream
    else if field == TOOLS then p.tools
    else if field == TOOL_CHOICE then p.toolChoice
    else p.messages
  }

  /** The ranges after scanning `ms` left to right from `acc`: for each
      probed key, the value of the last member with that key. */
  function RangesFrom(s: bytes, ms: seq<Member>, acc: ProbeRanges): ProbeRanges
    requires forall n | 0 <= n < |ms| :: InBounds(s, ms[n])
  {
    ProbeRanges(
      MatchFrom(s, ms, MODEL, acc.model),
      MatchFrom(s, ms, STREAM, acc.stream),
      MatchFrom(s, ms, TOOLS, acc.tools),
      MatchFrom(s, ms, TOOL_CHOICE, acc.toolChoice),
      MatchFrom(s, ms, MESSAGES, acc.messages))
  }

  /** `find_common_probe_field_ranges`, specified on the member list:
      None (the `Err(())` of the source) unless the body is an object. */
  function CommonProbeRanges(s: bytes): (r: Option<ProbeRanges>)
    ensures r.Some? ==> WsEnd(s, 0) < |s| && s[WsEnd(s, 0)] == '{'
  {
    match TopLevelMembers(s)
    case None => None
    case Some(ms) => Some(RangesFrom(s, ms, NO_RANGES))
  }

  /** The match on the key inside the loop: the member's value range goes
      to the field it names, other keys change nothing. */
  function RecordMember(s: bytes, m: Member, acc: ProbeRanges): ProbeRanges
    requires InBounds(s, m)
  {
    var key := KeyOf(s, m);
    var range := Some((m.valueStart, m.valueEnd));
    if key == MODEL then acc.(model := range)
    else if key == STREAM then acc.(stream := range)
    else if key == TOOLS then acc.(tools := range)
    else if key == TOOL_CHOICE then acc.(toolChoice := range)
    else if key == MESSAGES then acc.(messages := range)
    else acc
  }

  /** For every probed key, recording a member is what the single-field
      search does with it. */
  lemma RecordMemberField(s: bytes, m: Member, acc: ProbeRanges, field: bytes)
    requires InBounds(s, m) && field in [MODEL, STREAM, TOOLS, TOOL_CHOICE, MESSAGES]
    ensures FieldOf(RecordMember(s, m, acc), field) ==
      if KeyOf(s, m) == field then Some((m.valueStart, m.valueEnd)) else FieldOf(acc, field)
  {
  }

  /** What the probe loop entered at `i` returns when it has recorded `acc`. */
  ghost function ProbeLoopResult(s: bytes, i: nat, acc: ProbeRanges): Option<ProbeRanges>
    requires i <= |s|
  {
    match MembersFrom(s, i)
    case None => None
    case Some(rest) => Some(RangesFrom(s, rest, acc))
  }

  lemma ProbeLoopStep(s: bytes, i: nat, acc: ProbeRanges, j: nat, m: Member, d: nat)
    requires i <= |s| && j == WsEnd(s, i) && j < |s| && s[j] == '"'
    requires MemberAt(s, j) == Some((m, d)) && d < |s|
    ensures s[d] == ',' ==> ProbeLoopResult(s, i, acc) == ProbeLoopResult(s, d + 1, RecordMember(s, m, acc))
    ensures s[d] == '}' ==> ProbeLoopResult(s, i, acc) == Some(RecordMember(s, m, acc))
    ensures s[d] != ',' && s[d] != '}' ==> ProbeLoopResult(s, i, acc) == None
  {
    var acc' := RecordMember(s, m, acc);
    RecordMemberField(s, m, acc, MODEL);
    RecordMemberField(s, m, acc, STREAM);
    RecordMemberField(s, m, acc, TOOLS);
    RecordMemberField(s, m, acc, TOOL_CHOICE);
    RecordMemberField(s, m, acc, MESSAGES);
    LoopResultStep(s, i, MODEL, acc.model, acc'.model, j, m, d);
    LoopResultStep(s, i, STREAM, acc.stream, acc'.stream, j, m, d);
    LoopResultStep(s, i, TOOLS, acc.tools, acc'.tools, j, m, d);
    LoopResultStep(s, i, TOOL_CHOICE, acc.toolChoice, acc'.toolChoice, j, m, d);
    LoopResultStep(s, i, MESSAGES, acc.messages, acc'.messages, j, m, d);
  }

  lemma ProbeLoopExit(s: bytes, i: nat, acc: ProbeRanges, j: nat)
    requires i <= |s| && j == WsEnd(s, i)
    ensures j >= |s| || (s[j] != '}' && s[j] != '"') ==> ProbeLoopResult(s, i, acc) == None
    ensures j < |s| && s[j] == '}' ==> ProbeLoopResult(s, i, acc) == Some(acc)
    ensures j < |s| && s[j] == '"' && (MemberAt(s, j).None? || MemberAt(s, j).value.1 >= |s|) ==>
              ProbeLoopResult(s, i, acc) == None
  {
    if j < |s| && s[j] == '}' {
      assert MembersFrom(s, i) == Some([]);
    }
  }

  /** `find_common_probe_field_ranges`: one pass over the top-level
      members, recording the value range of each probed key. */
  method FindCommonProbeFieldRanges(s: bytes) returns (r: Option<ProbeRanges>)
    ensures r == CommonProbeRanges(s)
  {
    var i := SkipWs(s, 0);
    if i >= |s| || s[i] != '{' {
      return None;
    }
    i := i + 1;
    var ranges := NO_RANGES;
    ghost var target := CommonProbeRanges(s);
    while true
      invariant i <= |s|
      invariant ProbeLoopResult(s, i, ranges) == target
      decreases |s| - i
    {
      var j := SkipWs(s, i);
      ProbeLoopExit(s, i, ranges, j);
      if j >= |s| || (s[j] != '}' && s[j] != '"') {
        assert target == None;
        return None;
      }
      if s[j] == '}' {
        assert target == Some(ranges);
        return Some(ranges);
      }
      var member := ParseMember(s, j);
      if member.None? {
        assert target == None;
        return None;
      }
      var m, d := member.value.0, member.value.1;
      if d >= |s| {
        assert target == None;
        return None;
      }
      ProbeLoopStep(s, i, ranges, j, m, d);
      ranges := RecordMember(s, m, ranges);
      if s[d] == ',' {
        i := d + 1;
      } else if s[d] == '}' {
        assert target == Some(ranges);
        return Some(ranges);
      } else {
        assert target == None;
        return None;
      }
    }
  }

  /** Each recorded range is the exact value of a top-level member with
      that key, and no later member has the key (a later duplicate
      overwrites an earlier one); a key is unrecorded exactly when no
      top-level member has it. */
  lemma ProbeFieldIsLastMember(s: bytes, field: bytes)
    requires CommonProbeRanges(s).Some? && field in [MODEL, STREAM, TOOLS, TOOL_CHOICE, MESSAGES]
    ensures var ms := TopLevelMembers(s).value;
      var r := FieldOf(CommonProbeRanges(s).value, field);
      (r.Some? ==> exists n | 0 <= n < |ms| ::
         KeyOf(s, ms[n]) == field && r.value == (ms[n].valueStart, ms[n].valueEnd)
         && ValueEnd(s, ms[n].valueStart) == Some(ms[n].valueEnd)
         && forall n2 | n < n2 < |ms| :: KeyOf(s, ms[n2]) != field)
      && (r.None? <==> forall n | 0 <= n < |ms| :: KeyOf(s, ms[n]) != field)
  {
    assert FieldOf(CommonProbeRanges(s).value, field) == TopLevelFieldRange(s, field).value;
    FieldRangeIsLastMember(s, field);
  }

  /** A recorded range lies inside the body. */
  lemma ProbeRangeInBody(s: bytes, field: bytes)
    requires CommonProbeRanges(s).Some? && field in [MODEL, STREAM, TOOLS, TOOL_CHOICE, MESSAGES]
    requires FieldOf(CommonProbeRanges(s).value, field).Some?
    ensures var range := FieldOf(CommonProbeRanges(s).value, field).value;
      range.0 < range.1 <= |s|
  {
    ProbeFieldIsLastMember(s, field);
  }

  // ---------------------------------------------------------------------
  // Tokens

  /** `parse_optional_bool_token`: the token `true`, `false` or `null`;
      anything else, or a range outside the body, is an error. */
  function ParseOptionalBoolToken(s: bytes, range: Range): (r: Result<Option<bool>, ()>)
    ensures r == Ok(Some(true)) <==> Slice(s, range) == Some("true")
    ensures r == Ok(Some(false)) <==> Slice(s, range) == Some("false")
    ensures r == Ok(None) <==> Slice(s, range) == Some("null")
  {
    match Slice(s, range)
    case None => Err(())
    case Some(token) =>
      if token == "true" then Ok(Some(true))
      else if token == "false" then Ok(Some(false))
      else if token == "null" then Ok(None)
      else Err(())
  }

  /** Every byte is JSON whitespace. */
  function AllJsonWs(t: bytes): (r: bool)
    ensures r <==> forall k | 0 <= k < |t| :: IsJsonWs(t[k])
  {
    if |t| == 0 then true else IsJsonWs(t[0]) && AllJsonWs(t[1..])
  }

  /** `[`, then only whitespace, then `]`. */
  predicate IsEmptyArrayToken(t: bytes) {
    |t| >= 2 && t[0] == '[' && t[|t| - 1] == ']' && forall k | 0 < k < |t| - 1 :: IsJsonWs(t[k])
  }

  /** `raw_tools_token_has_items`: false exactly for an empty array; a
      token that is not an array counts as having items. */
  function RawToolsTokenHasItems(token: bytes): (r: bool)
    ensures !r <==> IsEmptyArrayToken(token)
  {
    if |token| == 0 || token[0] != '[' || token[|token| - 1] != ']' then true
    else if |token| == 1 then true
    else !AllJsonWs(token[1..|token| - 1])
  }

  /** At least two bytes, `"` at both ends. */
  predicate IsQuoted(t: bytes) {
    |t| >= 2 && t[0] == '"' && t[|t| - 1] == '"'
  }

  /** The bytes between the quotes. */
  function Inner(t: bytes): bytes
    requires IsQuoted(t)
  {
    t[1..|t| - 1]
  }

  /** The string a string token holds, read the way both the probe and the
      raw injector do: without a backslash the inner bytes are the string;
      otherwise they are read back as a JSON string body. */
  function ReadStringToken(t: bytes): (r: Option<bytes>)
    ensures r.Some? ==> IsQuoted(t)
    ensures IsQuoted(t) && !HasByte(Inner(t), '\\') ==> r == Some(Inner(t))
  {
    if !IsQuoted(t) then None
    else if !HasByte(Inner(t), '\\') then Some(Inner(t))
    else Util.UnescapeBody(Inner(t))
  }

  /** `parse_model_token`: the string the token of a range holds; a range
      outside the body or a token that is not a string is an error. */
  function ParseModelToken(s: bytes, range: Range): (r: Result<bytes, ()>)
    ensures r.Ok? ==> Slice(s, range).Some? && IsQuoted(Slice(s, range).value)
    ensures var t := Slice(s, range);
      t.Some? && IsQuoted(t.value) && !HasByte(Inner(t.value), '\\') ==> r == Ok(Inner(t.value))
  {
    match Slice(s, range)
    case None => Err(())
    case Some(token) =>
      match ReadStringToken(token)
      case None => Err(())
      case Some(text) => Ok(text)
  }

  /** `model_needs_json_escape`: some byte is a control byte, `"` or `\`. */
  function ModelNeedsJsonEscape(model: bytes): (r: bool)
    ensures r <==> exists k | 0 <= k < |model| :: Util.NeedsEscape(model[k])
  {
    if |model| == 0 then false
    else Util.NeedsEscape(model[0]) || ModelNeedsJsonEscape(model[1..])
  }

  // ---------------------------------------------------------------------
  // The model rewrite

  /** With nothing to escape the JSON literal is the model between quotes,
      which is what the fast path of the rewrite writes. */
  lemma PlainModelQuoted(model: bytes)
    requires !ModelNeedsJsonEscape(model)
    ensures Util.JsonQuoted(model) == "\"" + model + "\""
  {
    Util.EscapeBodyPlain(model);
  }

  /** `rewrite_model_token_range`: the body with the range replaced by the
      JSON literal of the model; the bytes before and after are kept. */
  method RewriteModelTokenRange(body: bytes, start: nat, end: nat, actualModel: bytes) returns (out: bytes)
    requires start <= end <= |body|
    ensures out == body[..start] + Util.JsonQuoted(actualModel) + body[end..]
  {
    if !ModelNeedsJsonEscape(actualModel) {
      PlainModelQuoted(actualModel);
      out := body[..start];
      out := out + "\"";
      out := out + actualModel;
      out := out + "\"";
      out := out + body[end..];
      assert out == body[..start] + ("\"" + actualModel + "\"") + body[end..];
      return;
    }
    var quoted := Util.JsonQuoted(actualModel);
    out := body[..start] + quoted + body[end..];
  }

  /** Reading back a body without backslashes gives the body itself. */
  lemma {:induction false} UnescapeWithoutBackslash(t: bytes)
    requires !HasByte(t, '\\') && Util.UnescapeBody(t).Some?
    ensures Util.UnescapeBody(t) == Some(t)
    decreases |t|
  {
    if |t| > 0 {
      assert t[0] != '\\';
      assert !HasByte(t[1..], '\\') by {
        forall k | 0 <= k < |t[1..]| ensures t[1..][k] != '\\' {
          assert t[1..][k] == t[k + 1];
        }
      }
      UnescapeWithoutBackslash(t[1..]);
      Util.UnescapeStep(t, t[0], 1);
      assert [t[0]] + t[1..] == t;
    }
  }

  /** The rewrite round-trips: the model token of the rewritten range is
      the model that was written. */
  lemma RewriteRoundTrip(body: bytes, start: nat, end: nat, model: bytes)
    requires start <= end <= |body|
    ensures var out := body[..start] + Util.JsonQuoted(model) + body[end..];
      ParseModelToken(out, (start, start + |Util.JsonQuoted(model)|)) == Ok(model)
  {
    var q := Util.JsonQuoted(model);
    var out := body[..start] + q + body[end..];
    var range := (start, start + |q|);
    assert out[start..start + |q|] == q;
    assert Slice(out, range) == Some(q);
    assert Inner(q) == Util.EscapeBody(model);
    Util.UnescapeEscape(model);
    if !HasByte(Util.EscapeBody(model), '\\') {
      UnescapeWithoutBackslash(Util.EscapeBody(model));
    }
  }

  /** One escaped byte in front of a scannable string body keeps it
      scannable. */
  lemma EscapedByteScans(b: byte, t: bytes)
    requires EscapedBody(t)
    ensures EscapedBody(Util.EscapeByte(b) + t)
  {
    var e := Util.EscapeByte(b);
    if Util.IsUnicodeEscaped(b) {
      var h1, h2 := Util.HexDigit(b as int / 16), Util.HexDigit(b as int % 16);
      assert e == "\\u00" + [h1, h2];
      var u := e + t;
      assert u[2..][4..] == t;
      assert EscapedBody(u[2..][3..]) by { assert u[2..][3..][1..] == t; }
      assert EscapedBody(u[2..][2..]) by { assert u[2..][2..][1..] == u[2..][3..]; }
      assert EscapedBody(u[2..][1..]) by { assert u[2..][1..][1..] == u[2..][2..]; }
      assert EscapedBody(u[2..]);
    } else if Util.NeedsEscape(b) {
      assert |e| == 2 && e[0] == '\\';
      assert (e + t)[2..] == t;
    } else {
      assert e == [b];
      assert (e + t)[1..] == t;
    }
  }

  /** Everything the escaper writes scans as a string body. */
  lemma {:induction false} EscapeBodyScans(v: bytes)
    ensures EscapedBody(Util.EscapeBody(v))
    decreases |v|
  {
    if |v| > 0 {
      EscapeBodyScans(v[1..]);
      Util.EscapeBodyCons(v[0], v[1..]);
      assert [v[0]] + v[1..] == v;
      EscapedByteScans(v[0], Util.EscapeBody(v[1..]));
    }
  }

  /** After the rewrite the scanner reads the new model value as exactly one
      string, ending where the JSON literal ends. */
  lemma RewrittenValueScans(body: bytes, start: nat, end: nat, model: bytes)
    requires start <= end <= |body|
    ensures var out := body[..start] + Util.JsonQuoted(model) + body[end..];
      StringEnd(out, start) == Some(start + |Util.JsonQuoted(model)|)
  {
    var q := Util.JsonQuoted(model);
    var out := body[..start] + q + body[end..];
    QuotedInside(body[..start], Util.EscapeBody(model), body[end..]);
    EscapeBodyScans(model);
    QuotedScans(out, start, Util.EscapeBody(model));
  }

  /** A quote, an escaped body and a quote read as one string. */
  lemma QuotedScans(out: bytes, start: nat, e: bytes)
    requires start + |e| + 1 < |out| && out[start] == '"' && out[start + |e| + 1] == '"'
    requires out[start + 1..start + |e| + 1] == e && EscapedBody(e)
    ensures StringEnd(out, start) == Some(start + |e| + 2)
  {
    var end := start + |e| + 2;
    assert out[start + 1..end - 1] == e;
    StringEndExact(out, start, end);
  }

  /** A quoted body between two pieces: the quotes and the body are where
      the lengths put them. */
  lemma QuotedInside(pre: bytes, e: bytes, post: bytes)
    ensures var out := pre + ("\"" + e + "\"") + post;
      && |out| == |pre| + |e| + 2 + |post|
      && out[|pre|] == '"' && out[|pre| + |e| + 1] == '"'
      && out[|pre| + 1..|pre| + |e| + 1] == e
  {
    var out := pre + ("\"" + e + "\"") + post;
    assert out[|pre| + 1..|pre| + |e| + 1] == e by {
      assert forall k | 0 <= k < |e| :: out[|pre| + 1 + k] == e[k];
    }
  }

  // ---------------------------------------------------------------------
  // The fast probe

  /** The probe a model member gives: its token must read as a string. */
  function ModelMemberProbe(s: bytes, m: Member): Option<CommonRequestProbe>
    requires InBounds(s, m)
  {
    var range := (m.valueStart, m.valueEnd);
    match ParseModelToken(s, range)
    case Err(_) => None
    case Ok(model) => Some(CommonRequestProbe(model, None, false, Some(NO_RANGES.(model := Some(range)))))
  }

  /** The first member of the object the body starts with, when there is one. */
  function FirstMember(s: bytes): Option<Member> {
    var i := WsEnd(s, 0);
    if i >= |s| || s[i] != '{' then None
    else
      var j := WsEnd(s, i + 1);
      if j >= |s| || s[j] != '"' then None
      else match MemberAt(s, j)
        case None => None
        case Some((m, _)) => Some(m)
  }

  /** The fast probe's cursor steps after `{`: the key string at `j`,
      which must be `model`. */
  function ModelKeyProbe(s: bytes, j: nat): Option<CommonRequestProbe> {
    if j >= |s| || s[j] != '"' then None
    else match StringEnd(s, j)
      case None => None
      case Some(k) => if s[j + 1..k - 1] != MODEL then None else ModelValueProbe(s, k)
  }

  /** The fast probe's cursor steps after the key ending at `k`: `:`, the
      value, and its token. */
  function ModelValueProbe(s: bytes, k: nat): Option<CommonRequestProbe> {
    var c := WsEnd(s, k);
    if c >= |s| || s[c] != ':' then None
    else
      var v := WsEnd(s, c + 1);
      match ValueEnd(s, v)
      case None => None
      case Some(e) =>
        match ParseModelToken(s, (v, e))
        case Err(_) => None
        case Ok(model) => Some(CommonRequestProbe(model, None, false, Some(NO_RANGES.(model := Some((v, e))))))
  }

  /** The probe of a body that opens an object whose first key is `model`. */
  function FirstModelProbe(s: bytes): Option<CommonRequestProbe> {
    var i := WsEnd(s, 0);
    if i >= |s| || s[i] != '{' then None else ModelKeyProbe(s, WsEnd(s, i + 1))
  }

  /** `try_parse_probe_without_stream_and_tools`, as a function of the
      body: no `"stream"` or `"tools"` anywhere, and a first member `model`
      whose token reads as a string. */
  function FastProbe(s: bytes): Option<CommonRequestProbe> {
    if Contains(s, QUOTED_STREAM) || Contains(s, QUOTED_TOOLS) then None else FirstModelProbe(s)
  }

  /** `try_parse_probe_without_stream_and_tools`: the two literal
      searches, then the cursor steps of `ParseFirstModelProbe`. */
  method TryParseProbeWithoutStreamAndTools(s: bytes) returns (r: Option<CommonRequestProbe>)
    ensures r == FastProbe(s)
  {
    if Contains(s, QUOTED_STREAM) || Contains(s, QUOTED_TOOLS) {
      return None;
    }
    r := ParseFirstModelProbe(s);
  }

  /** The cursor steps of the fast probe: `{`, the key string, which must
      be `model`, `:`, the value, and its token. */
  method ParseFirstModelProbe(s: bytes) returns (r: Option<CommonRequestProbe>)
    ensures r == FirstModelProbe(s)
  {
    var i := SkipWs(s, 0);
    if i >= |s| || s[i] != '{' {
      return None;
    }
    var j := SkipWs(s, i + 1);
    assert FirstModelProbe(s) == ModelKeyProbe(s, j);
    if j >= |s| || s[j] != '"' {
      return None;
    }
    var keyEnd := ParseStringEnd(s, j);
    if keyEnd.None? {
      return None;
    }
    var k := keyEnd.value;
    if s[j + 1..k - 1] != MODEL {
      return None;
    }
    assert ModelKeyProbe(s, j) == ModelValueProbe(s, k);
    r := ParseModelValue(s, k);
  }

  /** The steps after the key: `:`, the value, and its token. */
  method ParseModelValue(s: bytes, k: nat) returns (r: Option<CommonRequestProbe>)
    ensures r == ModelValueProbe(s, k)
  {
    var c := SkipWs(s, k);
    if c >= |s| || s[c] != ':' {
      return None;
    }
    var v := SkipWs(s, c + 1);
    var modelEnd := ParseValueEnd(s, v);
    if modelEnd.None? {
      return None;
    }
    var model := ParseModelToken(s, (v, modelEnd.value));
    if model.Err? {
      return None;
    }
    r := Some(CommonRequestProbe(model.value, None, false, Some(NO_RANGES.(model := Some((v, modelEnd.value))))));
  }

  /** A body holding `"stream"` or `"tools"` anywhere goes to the full probe. */
  lemma FastProbeRefusesStreamAndTools(s: bytes)
    requires Contains(s, QUOTED_STREAM) || Contains(s, QUOTED_TOOLS)
    ensures FastProbe(s) == None
  {
  }

  /** The key steps of the fast probe read the member whose key string
      starts at `j`, and succeed only when its key is `model`. */
  lemma ModelKeyProbeReadsMember(s: bytes, j: nat)
    requires ModelKeyProbe(s, j).Some?
    ensures MemberAt(s, j).Some? && KeyOf(s, MemberAt(s, j).value.0) == MODEL
    ensures ModelKeyProbe(s, j) == ModelMemberProbe(s, MemberAt(s, j).value.0)
  {
    var k := StringEnd(s, j).value;
    var c := WsEnd(s, k);
    var v := WsEnd(s, c + 1);
    MemberAtParts(s, j, k, c, v, ValueEnd(s, v));
  }

  /** A fast probe that succeeds read an object whose first member is
      `model`: the model is that member's token and the only range recorded
      is that member's value, with no stream and no tools. */
  lemma FastProbeReadsFirstMember(s: bytes)
    requires FastProbe(s).Some?
    ensures !Contains(s, QUOTED_STREAM) && !Contains(s, QUOTED_TOOLS)
    ensures FirstMember(s).Some? && KeyOf(s, FirstMember(s).value) == MODEL
    ensures var m := FirstMember(s).value;
      var range := (m.valueStart, m.valueEnd);
      FastProbe(s).value == CommonRequestProbe(ParseModelToken(s, range).value, None, false,
                                               Some(NO_RANGES.(model := Some(range))))
  {
    var i := WsEnd(s, 0);
    ModelKeyProbeReadsMember(s, WsEnd(s, i + 1));
  }

  // ---------------------------------------------------------------------
  // Reading the probe from the ranges

  function ModelError(requestName: bytes): bytes {
    "Invalid " + requestName + " body: model must be a string"
  }

  function StreamError(requestName: bytes): bytes {
    "Invalid " + requestName + " body: stream must be a boolean or null"
  }

  /** The probe read from scanned ranges that include a model: the model
      token is checked first, then the stream token; `tools` counts when
      its token has items. */
  function ProbeFromRanges(body: bytes, requestName: bytes, ranges: ProbeRanges): (r: Result<CommonRequestProbe, CanonicalError>)
    requires ranges.model.Some?
    requires ranges.tools.Some? ==> ranges.tools.value.0 <= ranges.tools.value.1 <= |body|
    ensures ParseModelToken(body, ranges.model.value).Err? ==> r == Err(InvalidRequest(ModelError(requestName)))
    ensures ParseModelToken(body, ranges.model.value).Ok? && ranges.stream.Some?
            && ParseOptionalBoolToken(body, ranges.stream.value).Err? ==>
            r == Err(InvalidRequest(StreamError(requestName)))
    ensures r.Ok? ==> r.value.model == ParseModelToken(body, ranges.model.value).value
                      && r.value.ranges == Some(ranges)
                      && (r.value.stream.Some? ==> ranges.stream.Some?)
                      && (r.value.hasTools <==>
                            (ranges.tools.Some?
                             && !IsEmptyArrayToken(body[ranges.tools.value.0..ranges.tools.value.1])))
  {
    match ParseModelToken(body, ranges.model.value)
    case Err(_) => Err(InvalidRequest(ModelError(requestName)))
    case Ok(model) =>
      var stream :=
        if ranges.stream.None? then Ok(None)
        else ParseOptionalBoolToken(body, ranges.stream.value);
      match stream
      case Err(_) => Err(InvalidRequest(StreamError(requestName)))
      case Ok(flag) =>
        var hasTools := ranges.tools.Some?
          && RawToolsTokenHasItems(body[ranges.tools.value.0..ranges.tools.value.1]);
        Ok(CommonRequestProbe(model, flag, hasTools, Some(ranges)))
  }

  /** `parse_common_request_probe` without its cache and its serde
      fallback: the fast probe, then the range scan when it finds a model.
      None is the fallback. */
  function ParseCommonRequestProbe(body: bytes, requestName: bytes): (r: Option<Result<CommonRequestProbe, CanonicalError>>)
    ensures FastProbe(body).Some? ==> r == Some(Ok(FastProbe(body).value))
    ensures r.None? <==> FastProbe(body).None?
                         && (CommonProbeRanges(body).None? || CommonProbeRanges(body).value.model.None?)
  {
    if FastProbe(body).Some? then Some(Ok(FastProbe(body).value))
    else match CommonProbeRanges(body)
      case None => None
      case Some(ranges) =>
        if ranges.model.None? then None
        else
          if ranges.tools.Some? then
            ProbeRangeInBody(body, TOOLS);
            Some(ProbeFromRanges(body, requestName, ranges))
          else Some(ProbeFromRanges(body, requestName, ranges))
  }
}
