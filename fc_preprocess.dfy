/** Request rewriting for inject mode (`src/fc/preprocess.rs`): tool
    results become user text, assistant tool calls become the trigger
    followed by `<function_calls>` XML, everything else passes through.
    The trigger signal is a parameter (the process-wide one in the source). */
module FcPreprocess {
  import opened Wrappers
  import opened Bytes
  import opened Canonical
  import FcParser

  // ---------------------------------------------------------------------
  // CDATA wrapping

  /** What every `]]>` inside the text becomes: the section is closed
      after `]]` and a new one opened before `>`. */
  const CDATA_ESCAPE: bytes := "]]]]><![CDATA[>"

  /** `wrap_cdata`. Its partner is `FcParser.UnwrapCdata`, see
      `WrapCdataRoundTrip`. */
  function WrapCdata(s: bytes): (r: bytes)
    ensures StartsWith(r, FcParser.CDATA_OPEN) && EndsWith(r, FcParser.CDATA_CLOSE)
    ensures !Contains(s, FcParser.CDATA_CLOSE) ==> r == FcParser.CDATA_OPEN + s + FcParser.CDATA_CLOSE
  {
    var r := FcParser.CDATA_OPEN + ReplaceAll(s, FcParser.CDATA_CLOSE, CDATA_ESCAPE) + FcParser.CDATA_CLOSE;
    assert r[..|FcParser.CDATA_OPEN|] == FcParser.CDATA_OPEN;
    assert r[|r| - |FcParser.CDATA_CLOSE|..] == FcParser.CDATA_CLOSE;
    r
  }

  // The round trip is proved for any three-byte closer whose last byte
  // differs from the first two, and any opener; CDATA is one instance.

  /** What a closer inside the text becomes: the section is closed after
      the closer's first two bytes and reopened before its last. */
  function Escape(open: bytes, close: bytes): bytes
    requires |close| == 3
  {
    close[..2] + close + open + close[2..]
  }

  predicate CloserShape(close: bytes) {
    |close| == 3 && close[2] != close[0] && close[2] != close[1]
  }

  /** `wrap_cdata` for any opener and closer. */
  function Wrap(s: bytes, open: bytes, close: bytes): bytes
    requires |close| == 3
  {
    open + ReplaceAll(s, close, Escape(open, close)) + close
  }

  lemma WrapCdataIsWrap(s: bytes)
    ensures CloserShape(FcParser.CDATA_CLOSE)
    ensures WrapCdata(s) == Wrap(s, FcParser.CDATA_OPEN, FcParser.CDATA_CLOSE)
  {
    assert CDATA_ESCAPE == Escape(FcParser.CDATA_OPEN, FcParser.CDATA_CLOSE);
  }

  /** A match of `p` at `k` with none in `[from, k)` is what `FindFrom`
      finds. */
  lemma FindFromAt(t: bytes, p: bytes, from: nat, k: nat)
    requires from <= k && MatchAt(t, p, k)
    requires forall m: nat | from <= m < k :: !MatchAt(t, p, m)
    ensures FindFrom(t, p, from) == Some(k)
  {
    FindFromSpec(t, p, from);
  }

  lemma SliceOfSlice(t: bytes, from: nat, k: nat, a: nat, b: nat)
    requires from <= k <= |t| && a <= b <= k - from
    ensures t[from..k][a..b] == t[from + a..from + b]
  {
    assert forall q | 0 <= q < b - a :: t[from..k][a..b][q] == t[from + a..from + b][q];
  }

  /** In `t`, the first closer at or after `from` is the one at `k` when
      the text between holds none. */
  lemma FirstCloseAt(t: bytes, from: nat, k: nat, close: bytes)
    requires CloserShape(close)
    requires from <= k && k + 3 <= |t| && t[k..k + 3] == close
    requires !Contains(t[from..k], close)
    ensures FindFrom(t, close, from) == Some(k)
  {
    var u := t[from..k];
    ContainsIff(u, close);
    forall m: nat | from <= m < k ensures !MatchAt(t, close, m) {
      if m + 3 <= k {
        SliceOfSlice(t, from, k, m - from, m - from + 3);
        assert !MatchAt(u, close, m - from);
      } else {
        var d := m + 2 - k;
        assert t[k..k + 3][d] == close[d];
        assert t[m..m + 3][2] == t[k + d];
      }
    }
    assert MatchAt(t, close, k);
    FindFromAt(t, close, from, k);
  }

  /** Text starting with the closer's last byte is copied ahead of the
      escaped rest. */
  lemma EscapeAfterLast(rest: bytes, open: bytes, close: bytes)
    requires CloserShape(close)
    ensures ReplaceAll(close[2..] + rest, close, Escape(open, close))
         == close[2..] + ReplaceAll(rest, close, Escape(open, close))
  {
    var s := close[2..] + rest;
    forall k: nat | k < 1 ensures !MatchAt(s, close, k) {
      assert 3 <= |s| ==> s[0..3][0] == s[0] == close[2];
    }
    ReplaceAllPrefix(close[2..], rest, s, close, Escape(open, close));
  }

  /** Before the first closer of `s`, and up to two bytes into it, there is
      no closer. */
  lemma NoCloseBeforeFirst(s: bytes, j: nat, close: bytes)
    requires |close| == 3 && Find(s, close) == Some(j)
    ensures !Contains(s[..j + 2], close)
  {
    var u := s[..j + 2];
    ContainsIff(u, close);
    forall m: nat ensures !MatchAt(u, close, m) {
      if m + 3 <= |u| {
        assert s[m..m + 3] == u[m..m + 3];
        assert !MatchAt(s, close, m);
      }
    }
  }

  /** The pieces of a four-part concatenation. */
  lemma Pieces(a: bytes, b: bytes, c: bytes, d: bytes)
    ensures var t := a + b + c + d;
      && t[|a|..|a| + |b|] == b
      && t[|a| + |b|..|a| + |b| + |c|] == c
      && t[|a| + |b| + |c|..] == d
      && (|d| >= 3 ==> t[|a| + |b| + |c|..|a| + |b| + |c| + 3] == d[..3])
  {
    var t := a + b + c + d;
    var n := |a| + |b| + |c|;
    assert t[|a|..|a| + |b|] == b;
    assert t[|a| + |b|..n] == c;
    assert t[n..] == d;
    if |d| >= 3 {
      assert t[n..n + 3] == t[n..][..3];
    }
  }

  /** One section at `o` whose closer first follows at `c`: its body goes
      in front of the sections after it. */
  lemma SectionHere(t: bytes, o: nat, open: bytes, close: bytes, c: nat)
    requires |open| > 0 && MatchAt(t, open, o) && o + |open| <= c && c + |close| <= |t|
    requires FindFrom(t, close, o + |open|) == Some(c)
    ensures FcParser.Sections(t, o, open, close)
         == FcParser.Prepend(t[o + |open|..c], FcParser.Sections(t, c + |close|, open, close))
  {
    assert FindFrom(t, open, o) == Some(o);
    FcParser.SectionAt(t, o, open, close, o, o + |open|, c);
  }

  /** A single section that ends the text. */
  lemma LastSection(t: bytes, o: nat, open: bytes, close: bytes, c: nat)
    requires |open| > 0 && MatchAt(t, open, o) && o + |open| <= c && c + |close| == |t|
    requires FindFrom(t, close, o + |open|) == Some(c)
    ensures FcParser.Sections(t, o, open, close) == Some(t[o + |open|..c])
  {
    SectionHere(t, o, open, close, c);
    assert FindFrom(t, open, c + |close|).None?;
    assert t[o + |open|..c] + [] == t[o + |open|..c];
  }

  /** A text made of one section whose body holds no closer. */
  lemma OnlySection(t: bytes, o: nat, s: bytes, open: bytes, close: bytes)
    requires |open| > 0 && CloserShape(close) && !Contains(s, close)
    requires var c := o + |open| + |s|;
      && |t| == c + 3 && MatchAt(t, open, o)
      && t[o + |open|..c] == s && t[c..c + 3] == close
    ensures FcParser.Sections(t, o, open, close) == Some(s)
  {
    var c := o + |open| + |s|;
    FirstCloseAt(t, o + |open|, c, close);
    LastSection(t, o, open, close, c);
  }

  /** Where the pieces of a wrapped text without the closer lie. */
  lemma WrapPlainLayout(t: bytes, o: nat, s: bytes, open: bytes, close: bytes)
    requires |close| == 3 && Find(s, close).None?
    requires o <= |t| && t[o..] == Wrap(s, open, close)
    ensures var c := o + |open| + |s|;
      && |t| == c + 3 && MatchAt(t, open, o)
      && t[o + |open|..c] == s && t[c..c + 3] == close
  {
    var c := o + |open| + |s|;
    assert t[o..] == open + s + close;
    assert t[o..o + |open|] == t[o..][..|open|];
    assert t[o + |open|..c] == t[o..][|open|..|open| + |s|];
    assert t[c..c + 3] == t[o..][|open| + |s|..];
  }

  /** A wrapped text without the closer is one section. */
  lemma WrappedPlain(t: bytes, o: nat, s: bytes, open: bytes, close: bytes)
    requires |open| > 0 && CloserShape(close) && Find(s, close).None?
    requires o <= |t| && t[o..] == Wrap(s, open, close)
    ensures FcParser.Sections(t, o, open, close) == Some(s)
  {
    WrapPlainLayout(t, o, s, open, close);
    OnlySection(t, o, s, open, close);
  }

  lemma RegroupEscape(open: bytes, a: bytes, close: bytes, e: bytes, r: bytes, u: bytes, w: bytes)
    requires |close| == 3
    requires r == a + Escape(open, close) + e && u == a + close[..2]
    requires w == open + (close[2..] + e) + close
    ensures open + r + close == open + u + close + w
  {
  }

  /** The closer's first two bytes start at the first match. */
  lemma SplitAtFirstClose(s: bytes, j: nat, close: bytes)
    requires |close| == 3 && Find(s, close) == Some(j)
    ensures s[..j + 2] == s[..j] + close[..2]
    ensures s[..j + 2] + (close[2..] + s[j + 3..]) == s
  {
    assert s[j..j + 3] == close;
    assert s[j..j + 2] == s[j..j + 3][..2];
    assert s[..j + 2] + (close[2..] + s[j + 3..]) == s[..j] + s[j..j + 3] + s[j + 3..];
  }

  /** The wrapping of a text whose first closer is at `j`: a section up to
      and including the closer's first two bytes, then the wrapping of its
      last byte and the rest. */
  lemma WrapEscapeShape(s: bytes, j: nat, open: bytes, close: bytes)
    requires CloserShape(close) && Find(s, close) == Some(j)
    ensures Wrap(s, open, close) == open + s[..j + 2] + close + Wrap(close[2..] + s[j + 3..], open, close)
    ensures s[..j + 2] + (close[2..] + s[j + 3..]) == s
  {
    var rest := s[j + 3..];
    var esc := Escape(open, close);
    SplitAtFirstClose(s, j, close);
    ReplaceAllUnfold(s, close, esc, j, rest);
    EscapeAfterLast(rest, open, close);
    var e := ReplaceAll(rest, close, esc);
    RegroupEscape(open, s[..j], close, e, ReplaceAll(s, close, esc), s[..j + 2], Wrap(close[2..] + rest, open, close));
  }

  /** Where the pieces of a wrapped text whose first closer is at `j` lie. */
  lemma WrapEscapeLayout(t: bytes, o: nat, s: bytes, j: nat, open: bytes, close: bytes)
    requires CloserShape(close) && Find(s, close) == Some(j)
    requires o <= |t| && t[o..] == Wrap(s, open, close)
    ensures var c := o + |open| + j + 2;
      && c + 3 <= |t| && MatchAt(t, open, o)
      && t[o + |open|..c] == s[..j + 2] && t[c..c + 3] == close
      && t[c + 3..] == Wrap(close[2..] + s[j + 3..], open, close)
  {
    WrapEscapeShape(s, j, open, close);
    var u := s[..j + 2];
    var w := Wrap(close[2..] + s[j + 3..], open, close);
    FourPieces(t, o, open, u, close, w);
  }

  /** A wrapped text whose first closer is at `j`: its first section holds
      everything up to and including the closer's first two bytes. */
  lemma WrappedEscape(t: bytes, o: nat, s: bytes, j: nat, open: bytes, close: bytes) returns (o2: nat, tail: bytes)
    requires |open| > 0 && CloserShape(close) && Find(s, close) == Some(j)
    requires o <= |t| && t[o..] == Wrap(s, open, close)
    ensures |tail| < |s| && s[..j + 2] + tail == s
    ensures o2 <= |t| && t[o2..] == Wrap(tail, open, close)
    ensures FcParser.Sections(t, o, open, close)
         == FcParser.Prepend(s[..j + 2], FcParser.Sections(t, o2, open, close))
  {
    WrapEscapeShape(s, j, open, close);
    WrapEscapeLayout(t, o, s, j, open, close);
    tail := close[2..] + s[j + 3..];
    var c := o + |open| + j + 2;
    o2 := c + 3;
    NoCloseBeforeFirst(s, j, close);
    FirstCloseAt(t, o + |open|, c, close);
    SectionHere(t, o, open, close, c);
  }

  /** The sections of a text from where a wrapped text starts are the
      original text. */
  lemma {:induction false} SectionsOfWrapped(t: bytes, o: nat, s: bytes, open: bytes, close: bytes)
    requires |open| > 0 && CloserShape(close)
    requires o <= |t| && t[o..] == Wrap(s, open, close)
    ensures FcParser.Sections(t, o, open, close) == Some(s)
    decreases |s|
  {
    match Find(s, close)
    case None =>
      WrappedPlain(t, o, s, open, close);
    case Some(j) =>
      var o2, tail := WrappedEscape(t, o, s, j, open, close);
      SectionsOfWrapped(t, o2, tail, open, close);
  }

  /** Unwrapping what `wrap_cdata` produced gives back the text, whatever
      `]]>` or `<![CDATA[` it holds. */
  lemma WrapCdataRoundTrip(s: bytes)
    ensures FcParser.UnwrapCdata(WrapCdata(s)) == s
  {
    var w := WrapCdata(s);
    assert w[0..9] == FcParser.CDATA_OPEN;
    assert MatchAt(w, FcParser.CDATA_OPEN, 0);
    ContainsIff(w, FcParser.CDATA_OPEN);
    WrapCdataIsWrap(s);
    assert w[0..] == w;
    SectionsOfWrapped(w, 0, s, FcParser.CDATA_OPEN, FcParser.CDATA_CLOSE);
  }

  // ---------------------------------------------------------------------
  // The tool-call index

  /** One tool call read from history: id, name and raw arguments text. */
  datatype CallRecord = CallRecord(id: bytes, name: bytes, arguments: bytes)

  /** The tool calls among `parts`, in order. */
  function CallsOf(parts: seq<Part>): (r: seq<CallRecord>)
    ensures |r| <= |parts|
  {
    if parts == [] then []
    else
      var last := parts[|parts| - 1];
      CallsOf(parts[..|parts| - 1])
        + (if last.ToolCall? then [CallRecord(last.id, last.name, last.arguments)] else [])
  }

  /** Every tool call of every assistant message, in conversation order. */
  function AssistantCalls(messages: seq<Message>): seq<CallRecord> {
    if messages == [] then []
    else
      var last := messages[|messages| - 1];
      AssistantCalls(messages[..|messages| - 1])
        + (if last.role == Assistant then CallsOf(last.parts) else [])
  }

  /** The map the calls build when each is inserted in turn. */
  function IndexOf(calls: seq<CallRecord>): map<bytes, (bytes, bytes)> {
    if calls == [] then map[]
    else
      var last := calls[|calls| - 1];
      IndexOf(calls[..|calls| - 1])[last.id := (last.name, last.arguments)]
  }

  /** An id is in the index iff some call has it, and it maps to the name
      and arguments of the LAST call with that id. */
  lemma {:induction false} IndexOfLastWins(calls: seq<CallRecord>, id: bytes)
    ensures id in IndexOf(calls) <==> exists k | 0 <= k < |calls| :: calls[k].id == id
    ensures forall k | 0 <= k < |calls| && calls[k].id == id
              && (forall k' | k < k' < |calls| :: calls[k'].id != id)
              :: IndexOf(calls)[id] == (calls[k].name, calls[k].arguments)
  {
    if calls != [] {
      var n := |calls| - 1;
      var init := calls[..n];
      IndexOfLastWins(init, id);
      forall k | 0 <= k < n ensures init[k] == calls[k] {}
      if calls[n].id != id {
        forall k | 0 <= k < |calls| && calls[k].id == id ensures k < n {}
      }
    }
  }

  /** Inserting one more call. */
  lemma IndexSnoc(calls: seq<CallRecord>, c: CallRecord)
    ensures IndexOf(calls + [c]) == IndexOf(calls)[c.id := (c.name, c.arguments)]
  {
    assert (calls + [c])[..|calls|] == calls;
  }

  /** The calls of one more part. */
  lemma CallsOfSnoc(parts: seq<Part>, j: nat)
    requires j < |parts|
    ensures CallsOf(parts[..j + 1]) == CallsOf(parts[..j])
      + (if parts[j].ToolCall? then [CallRecord(parts[j].id, parts[j].name, parts[j].arguments)] else [])
  {
    assert parts[..j + 1][..j] == parts[..j];
  }

  /** The calls of one more message. */
  lemma AssistantCallsSnoc(messages: seq<Message>, i: nat)
    requires i < |messages|
    ensures AssistantCalls(messages[..i + 1]) == AssistantCalls(messages[..i])
      + (if messages[i].role == Assistant then CallsOf(messages[i].parts) else [])
  {
    assert messages[..i + 1][..i] == messages[..i];
  }

  /** The inner loop of `build_tool_call_index`: the calls of one
      assistant message inserted in part order. */
  method InsertCalls(index0: map<bytes, (bytes, bytes)>, ghost before: seq<CallRecord>, parts: seq<Part>)
    returns (index: map<bytes, (bytes, bytes)>)
    requires index0 == IndexOf(before)
    ensures index == IndexOf(before + CallsOf(parts))
  {
    index := index0;
    var j := 0;
    assert before + CallsOf(parts[..0]) == before;
    while j < |parts|
      invariant 0 <= j <= |parts|
      invariant index == IndexOf(before + CallsOf(parts[..j]))
    {
      InsertStep(before, parts, j);
      if parts[j].ToolCall? {
        index := index[parts[j].id := (parts[j].name, parts[j].arguments)];
      }
      j := j + 1;
    }
    assert parts[..j] == parts;
  }

  /** The index after one more part of a message. */
  lemma InsertStep(before: seq<CallRecord>, parts: seq<Part>, j: nat)
    requires j < |parts|
    ensures IndexOf(before + CallsOf(parts[..j + 1]))
      == if parts[j].ToolCall? then IndexOf(before + CallsOf(parts[..j]))[parts[j].id := (parts[j].name, parts[j].arguments)]
         else IndexOf(before + CallsOf(parts[..j]))
  {
    CallsOfSnoc(parts, j);
    if parts[j].ToolCall? {
      var call := CallRecord(parts[j].id, parts[j].name, parts[j].arguments);
      assert before + CallsOf(parts[..j + 1]) == (before + CallsOf(parts[..j])) + [call];
      IndexSnoc(before + CallsOf(parts[..j]), call);
    } else {
      assert before + CallsOf(parts[..j + 1]) == before + CallsOf(parts[..j]);
    }
  }

  /** `build_tool_call_index`. */
  method BuildToolCallIndex(messages: seq<Message>) returns (index: map<bytes, (bytes, bytes)>)
    ensures index == IndexOf(AssistantCalls(messages))
  {
    index := map[];
    var i := 0;
    while i < |messages|
      invariant 0 <= i <= |messages|
      invariant index == IndexOf(AssistantCalls(messages[..i]))
    {
      AssistantCallsSnoc(messages, i);
      if messages[i].role == Assistant {
        index := InsertCalls(index, AssistantCalls(messages[..i]), messages[i].parts);
      } else {
        assert AssistantCalls(messages[..i + 1]) == AssistantCalls(messages[..i]);
      }
      i := i + 1;
    }
    assert messages[..i] == messages;
  }

  /** Only assistant messages feed the index. */
  lemma AssistantCallsSkipOthers(messages: seq<Message>, m: Message)
    requires m.role != Assistant
    ensures AssistantCalls(messages + [m]) == AssistantCalls(messages)
  {
    assert (messages + [m])[..|messages|] == messages;
  }

  // ---------------------------------------------------------------------
  // Text of parts

  /** The text `collect_text_like_parts` gathers: Text parts, and tool
      result contents when `includeToolResult`. */
  function TextLike(parts: seq<Part>, includeToolResult: bool): bytes {
    if parts == [] then []
    else TextLike(parts[..|parts| - 1], includeToolResult) + PartText(parts[|parts| - 1], includeToolResult)
  }

  /** What one part adds to the gathered text. */
  function PartText(p: Part, includeToolResult: bool): bytes {
    if p.Text? then p.text
    else if p.ToolResult? && includeToolResult then p.content
    else []
  }

  /** The text of two runs of parts is the text of each, concatenated. */
  lemma {:induction false} TextLikeAppend(a: seq<Part>, b: seq<Part>, incl: bool)
    ensures TextLike(a + b, incl) == TextLike(a, incl) + TextLike(b, incl)
    decreases |b|
  {
    if b == [] {
      assert a + b == a;
    } else {
      var n := |b| - 1;
      assert (a + b)[..|a + b| - 1] == a + b[..n];
      TextLikeAppend(a, b[..n], incl);
      ConcatAssoc(TextLike(a, incl), TextLike(b[..n], incl), PartText(b[n], incl));
    }
  }

  /** `collect_text_like_parts`. */
  method CollectTextLikeParts(parts: seq<Part>, includeToolResult: bool) returns (content: bytes)
    ensures content == TextLike(parts, includeToolResult)
  {
    content := [];
    var i := 0;
    while i < |parts|
      invariant 0 <= i <= |parts|
      invariant content == TextLike(parts[..i], includeToolResult)
    {
      assert parts[..i + 1][..i] == parts[..i];
      match parts[i] {
        case Text(text) => content := content + text;
        case ToolResult(_, text) =>
          if includeToolResult {
            content := content + text;
          }
        case _ =>
      }
      i := i + 1;
    }
    assert parts[..i] == parts;
  }

  // ---------------------------------------------------------------------
  // Rewriting one message

  const UNKNOWN_TOOL: bytes := "unknown"
  const EMPTY_ARGS: bytes := "{}"

  /** The name and arguments recorded for an id, or `unknown` and `{}`. */
  function LookupCall(index: map<bytes, (bytes, bytes)>, key: bytes): (bytes, bytes) {
    if key in index then index[key] else (UNKNOWN_TOOL, EMPTY_ARGS)
  }

  /** The user text a tool result becomes. */
  function ToolResultText(name: bytes, arguments: bytes, content: bytes): bytes {
    "Tool execution result:\n- Tool name: " + name + "\n- Tool arguments: " + arguments
      + "\n- Execution result:\n<tool_result>\n" + content + "\n</tool_result>"
  }

  /** One `<function_call>` block. */
  function CallXml(id: bytes, name: bytes, arguments: bytes): bytes {
    "<function_call>\n<id>" + id + "</id>\n<tool>" + name + "</tool>\n<args_json>"
      + WrapCdata(arguments) + "</args_json>\n</function_call>"
  }

  /** The blocks of all tool calls among `parts`, each followed by a newline. */
  function CallsXml(parts: seq<Part>): bytes {
    if parts == [] then []
    else
      var last := parts[|parts| - 1];
      CallsXml(parts[..|parts| - 1])
        + (if last.ToolCall? then CallXml(last.id, last.name, last.arguments) + "\n" else [])
  }

  predicate HasToolCall(parts: seq<Part>) {
    exists k | 0 <= k < |parts| :: parts[k].ToolCall?
  }

  /** The text an assistant message with tool calls becomes, before trimming. */
  function AssistantXml(trigger: bytes, parts: seq<Part>): bytes {
    var original := TextLike(parts, false);
    (if original != [] then original + "\n" else [])
      + trigger + "\n<function_calls>\n" + CallsXml(parts) + "</function_calls>"
  }

  /** The rewrite of one message, given the index and the trigger. */
  function PreprocessMessage(index: map<bytes, (bytes, bytes)>, trigger: bytes, msg: Message): Message {
    match msg.role
    case Tool =>
      var call := LookupCall(index, msg.toolCallId.GetOr([]));
      Message(User, [Text(ToolResultText(call.0, call.1, TextLike(msg.parts, true)))], None, None, None)
    case Assistant =>
      if HasToolCall(msg.parts) then
        msg.(parts := [Text(Trim(AssistantXml(trigger, msg.parts)))], toolCallId := None, extensions := None)
      else msg
    case _ => msg
  }

  /** What `preprocess_messages_owned` returns: every message rewritten
      against the index of the whole conversation. */
  function Preprocessed(trigger: bytes, messages: seq<Message>): (r: seq<Message>)
    ensures |r| == |messages|
  {
    var index := IndexOf(AssistantCalls(messages));
    seq(|messages|, i requires 0 <= i < |messages| => PreprocessMessage(index, trigger, messages[i]))
  }

  /** `preprocess_messages_owned`. */
  method PreprocessMessagesOwned(messages: seq<Message>, trigger: bytes) returns (result: seq<Message>)
    ensures |result| == |messages|
    ensures forall i | 0 <= i < |messages| ::
      result[i] == PreprocessMessage(IndexOf(AssistantCalls(messages)), trigger, messages[i])
  {
    var index := BuildToolCallIndex(messages);
    result := [];
    var i := 0;
    while i < |messages|
      invariant 0 <= i <= |messages|
      invariant |result| == i
      invariant forall k | 0 <= k < i :: result[k] == PreprocessMessage(index, trigger, messages[k])
    {
      var msg := messages[i];
      var out: Message;
      match msg.role {
        case Tool =>
          var key := msg.toolCallId.GetOr([]);
          var content := CollectTextLikeParts(msg.parts, true);
          var name, arguments := UNKNOWN_TOOL, EMPTY_ARGS;
          if key in index {
            name, arguments := index[key].0, index[key].1;
          }
          out := Message(User, [Text(ToolResultText(name, arguments, content))], None, None, None);
        case Assistant =>
          if HasToolCall(msg.parts) {
            out := msg.(parts := [Text(Trim(AssistantXml(trigger, msg.parts)))], toolCallId := None, extensions := None);
          } else {
            out := msg;
          }
        case _ =>
          out := msg;
      }
      result := result + [out];
      i := i + 1;
    }
  }

  // ---------------------------------------------------------------------
  // Properties

  /** A tool message becomes a user message with one text part; its name,
      call id and extensions are cleared. */
  lemma ToolMessageBecomesUser(messages: seq<Message>, trigger: bytes, i: nat)
    requires i < |messages| && messages[i].role == Tool
    ensures var m := Preprocessed(trigger, messages)[i];
      && m.role == User && |m.parts| == 1 && m.parts[0].Text?
      && m.name.None? && m.toolCallId.None? && m.extensions.None?
  {
  }

  /** A tool result whose id no earlier call carries names the tool
      `unknown` with arguments `{}`. */
  lemma ToolResultUnknownCall(messages: seq<Message>, trigger: bytes, i: nat)
    requires i < |messages| && messages[i].role == Tool
    requires var calls := AssistantCalls(messages);
      forall k | 0 <= k < |calls| :: calls[k].id != messages[i].toolCallId.GetOr([])
    ensures Preprocessed(trigger, messages)[i].parts
         == [Text(ToolResultText(UNKNOWN_TOOL, EMPTY_ARGS, TextLike(messages[i].parts, true)))]
  {
    var key := messages[i].toolCallId.GetOr([]);
    IndexOfLastWins(AssistantCalls(messages), key);
    assert LookupCall(IndexOf(AssistantCalls(messages)), key) == (UNKNOWN_TOOL, EMPTY_ARGS);
  }

  /** A tool result takes the tool name and arguments of the LAST call in
      the conversation with its id. */
  lemma ToolResultKnownCall(messages: seq<Message>, trigger: bytes, i: nat, k: nat)
    requires i < |messages| && messages[i].role == Tool
    requires var calls := AssistantCalls(messages);
      && k < |calls| && calls[k].id == messages[i].toolCallId.GetOr([])
      && forall k' | k < k' < |calls| :: calls[k'].id != calls[k].id
    ensures var call := AssistantCalls(messages)[k];
      Preprocessed(trigger, messages)[i].parts
        == [Text(ToolResultText(call.name, call.arguments, TextLike(messages[i].parts, true)))]
  {
    IndexOfLastWins(AssistantCalls(messages), messages[i].toolCallId.GetOr([]));
  }

  /** System and user messages, and assistant messages without tool calls,
      pass through unchanged. */
  lemma PassThroughUnchanged(messages: seq<Message>, trigger: bytes, i: nat)
    requires i < |messages|
    ensures (messages[i].role in {System, User} || (messages[i].role == Assistant && !HasToolCall(messages[i].parts)))
      <==> Preprocessed(trigger, messages)[i] == messages[i]
  {
    var m := messages[i];
    var r := Preprocessed(trigger, messages)[i];
    assert r == PreprocessMessage(IndexOf(AssistantCalls(messages)), trigger, m);
    if m.role == Assistant && HasToolCall(m.parts) {
      var k :| 0 <= k < |m.parts| && m.parts[k].ToolCall?;
      RewrittenDiffers(m, k, r.parts);
    }
  }

  /** Parts holding a tool call are not a single text part. */
  lemma RewrittenDiffers(m: Message, k: nat, parts: seq<Part>)
    requires k < |m.parts| && m.parts[k].ToolCall?
    requires |parts| == 1 && parts[0].Text?
    ensures m.parts != parts
  {
    if |m.parts| == 1 {
      assert m.parts[0].ToolCall?;
    }
  }

  /** An assistant message with tool calls becomes one trimmed text part
      holding its text, the trigger and the calls' XML; its name is kept. */
  lemma AssistantCallsBecomeXml(messages: seq<Message>, trigger: bytes, i: nat)
    requires i < |messages| && messages[i].role == Assistant && HasToolCall(messages[i].parts)
    ensures var m := Preprocessed(trigger, messages)[i];
      && m.role == Assistant && m.name == messages[i].name
      && m.toolCallId.None? && m.extensions.None?
      && m.parts == [Text(Trim(AssistantXml(trigger, messages[i].parts)))]
  {
  }

  /** The calls' XML lists the calls in part order: appending a call part
      appends its block. */
  lemma CallsXmlAppend(parts: seq<Part>, id: bytes, name: bytes, arguments: bytes)
    ensures CallsXml(parts + [ToolCall(id, name, arguments)]) == CallsXml(parts) + CallXml(id, name, arguments) + "\n"
  {
    assert (parts + [ToolCall(id, name, arguments)])[..|parts|] == parts;
  }

  /** The arguments inside a call block come back from its CDATA section
      byte for byte. */
  lemma CallXmlArgumentsRoundTrip(id: bytes, name: bytes, arguments: bytes)
    ensures var w := WrapCdata(arguments);
      && Contains(CallXml(id, name, arguments), w)
      && FcParser.UnwrapCdata(w) == arguments
  {
    var w := WrapCdata(arguments);
    var pre := "<function_call>\n<id>" + id + "</id>\n<tool>" + name + "</tool>\n<args_json>";
    var x := CallXml(id, name, arguments);
    assert x == pre + w + "</args_json>\n</function_call>";
    assert x[|pre|..|pre| + |w|] == w;
    assert MatchAt(x, w, |pre|);
    ContainsIff(x, w);
    WrapCdataRoundTrip(arguments);
  }
}
