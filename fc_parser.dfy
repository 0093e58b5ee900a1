/** The string-scanning parts of the tool-call parser (`src/fc/parser.rs`):
    reasoning-block removal, CDATA unwrapping, XML entity decoding, call-id
    normalisation, attribute extraction, the search for the trigger signal
    and the `<function_calls>` block after it, and the final validation of
    the parsed calls.

    The loops of the source are methods proved equal to recursive
    specification functions; the properties are lemmas about those
    functions. The XML parsing tiers (quick-xml, regex, permissive) are a
    parameter of `ParseFunctionCalls`. */
module FcParser {
  import opened Wrappers
  import opened Bytes
  import opened JsonValue
  import Detector

  // ---------------------------------------------------------------------
  // XML entities

  const AMP_ENTITY: bytes := "&amp;"
  const LT_ENTITY: bytes := "&lt;"
  const GT_ENTITY: bytes := "&gt;"
  const QUOT_ENTITY: bytes := "&quot;"
  const APOS_ENTITY: bytes := "&apos;"

  /** The predefined entity that starts `s`, as its length and the byte it
      stands for, tried in the order of the source. */
  function EntityAt(s: bytes): (r: Option<(nat, byte)>)
    ensures r.Some? ==> 4 <= r.value.0 <= |s| && s[0] == '&'
  {
    if StartsWith(s, AMP_ENTITY) then Some((5, '&'))
    else if StartsWith(s, LT_ENTITY) then Some((4, '<'))
    else if StartsWith(s, GT_ENTITY) then Some((4, '>'))
    else if StartsWith(s, QUOT_ENTITY) then Some((6, '"'))
    else if StartsWith(s, APOS_ENTITY) then Some((6, '\''))
    else None
  }

  /** The decoded text: each of the five predefined entities becomes the
      byte it names; every other byte, an `&` that starts none of them
      included, is kept. */
  function Decode(s: bytes): (r: bytes)
    ensures |r| <= |s|
    decreases |s|
  {
    if |s| == 0 then []
    else if s[0] != '&' then [s[0]] + Decode(s[1..])
    else match EntityAt(s)
      case Some(e) => [e.1] + Decode(s[e.0..])
      case None => [s[0]] + Decode(s[1..])
  }

  /** A run without `&` is copied as it is. */
  lemma {:induction false} DecodeRun(s: bytes, i: nat, j: nat)
    requires i <= j <= |s|
    requires forall k | i <= k < j :: s[k] != '&'
    ensures Decode(s[i..]) == s[i..j] + Decode(s[j..])
    decreases j - i
  {
    var rest := Decode(s[j..]);
    if i < j {
      assert s[i..][0] == s[i] && s[i..][1..] == s[i + 1..];
      assert Decode(s[i..]) == [s[i]] + Decode(s[i + 1..]);
      DecodeRun(s, i + 1, j);
      assert s[i..j] == [s[i]] + s[i + 1..j];
      ConcatAssoc([s[i]], s[i + 1..j], rest);
    } else {
      assert s[i..j] + rest == rest;
    }
  }

  /** Text without `&` decodes to itself. */
  lemma DecodePlain(s: bytes)
    requires !HasByte(s, '&')
    ensures Decode(s) == s
  {
    DecodeRun(s, 0, |s|);
    assert s[0..] == s && s[|s|..] == [];
  }

  /** At an `&`, one entity (or the `&` alone) is decoded: `n` bytes
      become `b`. */
  lemma DecodeAmp(s: bytes, i: nat, n: nat, b: byte)
    requires i < |s| && s[i] == '&'
    requires EntityAt(s[i..]).Some? ==> (n, b) == EntityAt(s[i..]).value
    requires EntityAt(s[i..]).None? ==> n == 1 && b == '&'
    ensures i + n <= |s|
    ensures Decode(s[i..]) == [b] + Decode(s[i + n..])
  {
    var t := s[i..];
    assert t[n..] == s[i + n..];
  }

  /** One round of the decoding loop: the entity at `i` (or the `&`), then
      the run without `&` up to `j`. */
  lemma DecodeStep(s: bytes, i: nat, n: nat, b: byte, j: nat)
    requires i + n <= j <= |s|
    requires Decode(s[i..]) == [b] + Decode(s[i + n..])
    requires forall k | i + n <= k < j :: s[k] != '&'
    ensures Decode(s[i..]) == [b] + s[i + n..j] + Decode(s[j..])
  {
    DecodeRun(s, i + n, j);
    PrependRun(Decode(s[i..]), Decode(s[i + n..]), [b], s[i + n..j], Decode(s[j..]));
  }

  /** `x` is `head` then `y`, and `y` is `run` then `rest`. */
  lemma PrependRun(x: bytes, y: bytes, head: bytes, run: bytes, rest: bytes)
    requires x == head + y && y == run + rest
    ensures x == head + run + rest
  {
    ConcatAssoc(head, run, rest);
  }

  /** `decode_xml_entities`: a copy up to the first `&`, then at every `&`
      one entity (or the `&` itself) and the run up to the next `&`. */
  method DecodeXmlEntities(text: bytes) returns (r: bytes)
    ensures r == Decode(text)
  {
    var firstAmp := FindByte(text, '&', 0);
    if firstAmp.None? {
      DecodePlain(text);
      return text;
    }
    var i := firstAmp.value;
    DecodeRun(text, 0, i);
    assert text[0..] == text;
    r := text[..i];
    while i < |text|
      invariant i <= |text|
      invariant i < |text| ==> text[i] == '&'
      invariant r + Decode(text[i..]) == Decode(text)
      decreases |text| - i
    {
      var entity := EntityAt(text[i..]);
      var n: nat, b: byte;
      if entity.Some? {
        n, b := entity.value.0, entity.value.1;
      } else {
        n, b := 1, '&';
      }
      DecodeAmp(text, i, n, b);
      var nextAmp := FindByte(text, '&', i + n);
      var j := if nextAmp.None? then |text| else nextAmp.value;
      DecodeStep(text, i, n, b, j);
      var piece := [b] + text[i + n..j];
      ConcatAssoc(r, piece, Decode(text[j..]));
      r := r + piece;
      i := j;
    }
    assert text[|text|..] == [];
  }

  /** The entity that stands for a byte, or the byte itself: the inverse of
      `Decode`, used to state what decoding undoes. */
  function EscapeXmlByte(b: byte): (r: bytes)
    ensures |r| > 0
  {
    if b == '&' then AMP_ENTITY
    else if b == '<' then LT_ENTITY
    else if b == '>' then GT_ENTITY
    else if b == '"' then QUOT_ENTITY
    else if b == '\'' then APOS_ENTITY
    else [b]
  }

  function EscapeXml(s: bytes): (r: bytes)
    ensures |r| >= |s|
  {
    if |s| == 0 then [] else EscapeXmlByte(s[0]) + EscapeXml(s[1..])
  }

  /** A byte string that differs from `p` at `k` does not start with it. */
  lemma DiffersAt(s: bytes, p: bytes, k: nat)
    requires k < |p| && (k >= |s| || s[k] != p[k])
    ensures !StartsWith(s, p)
  {
    if |p| <= |s| {
      assert s[..|p|][k] == s[k];
      assert s[..|p|] != p;
    }
  }

  /** Decoding one escaped byte gives the byte back. */
  lemma DecodeEscapedByte(b: byte, rest: bytes)
    ensures Decode(EscapeXmlByte(b) + rest) == [b] + Decode(rest)
  {
    var e := EscapeXmlByte(b);
    var s := e + rest;
    assert s[..|e|] == e && s[|e|..] == rest;
    assert s[0] == e[0];
    if b == '&' {
      assert EntityAt(s) == Some((5, '&'));
    } else if b == '<' {
      DiffersAt(s, AMP_ENTITY, 1);
      assert EntityAt(s) == Some((4, '<'));
    } else if b == '>' {
      DiffersAt(s, AMP_ENTITY, 1);
      DiffersAt(s, LT_ENTITY, 1);
      assert EntityAt(s) == Some((4, '>'));
    } else if b == '"' {
      DiffersAt(s, AMP_ENTITY, 1);
      DiffersAt(s, LT_ENTITY, 1);
      DiffersAt(s, GT_ENTITY, 1);
      assert EntityAt(s) == Some((6, '"'));
    } else if b == '\'' {
      DiffersAt(s, AMP_ENTITY, 2);
      DiffersAt(s, LT_ENTITY, 1);
      DiffersAt(s, GT_ENTITY, 1);
      DiffersAt(s, QUOT_ENTITY, 1);
      assert EntityAt(s) == Some((6, '\''));
    } else {
      assert s[0] == b && s[1..] == rest;
    }
  }

  /** Decoding undoes escaping: every text survives the round trip. */
  lemma {:induction false} DecodeEscape(s: bytes)
    ensures Decode(EscapeXml(s)) == s
    decreases |s|
  {
    if |s| > 0 {
      DecodeEscapedByte(s[0], EscapeXml(s[1..]));
      DecodeEscape(s[1..]);
      assert s == [s[0]] + s[1..];
    }
  }

  // ---------------------------------------------------------------------
  // CDATA sections

  const CDATA_OPEN: bytes := "<![CDATA["
  const CDATA_CLOSE: bytes := "]]>"

  /** `acc` in front of a section result. */
  function Prepend(acc: bytes, r: Option<bytes>): Option<bytes> {
    match r
    case None => None
    case Some(x) => Some(acc + x)
  }

  lemma PrependChain(all: Option<bytes>, a: bytes, b: bytes, here: Option<bytes>, next: Option<bytes>)
    requires all == Prepend(a, here) && here == Prepend(b, next)
    ensures all == Prepend(a + b, next)
  {
    if next.Some? {
      ConcatAssoc(a, b, next.value);
    }
  }

  /** The bodies of all `open`…`close` sections of `t` from `from` on,
      concatenated, dropping what lies between them; None when a section
      is never closed. */
  function Sections(t: bytes, from: nat, open: bytes, close: bytes): (r: Option<bytes>)
    requires |open| > 0
    ensures from <= |t| && r.Some? ==> |r.value| <= |t| - from
    decreases |t| - from
  {
    match FindFrom(t, open, from)
    case None => Some([])
    case Some(o) =>
      match FindFrom(t, close, o + |open|)
      case None => None
      case Some(c) =>
        FindFromFound(t, open, from);
        FindFromFound(t, close, o + |open|);
        Prepend(t[o + |open|..c], Sections(t, c + |close|, open, close))
  }

  /** `unwrap_cdata`: the sections' bodies when there is a section, the
      text unchanged when there is none or one is never closed. */
  function UnwrapCdata(t: bytes): (r: bytes)
    ensures |r| <= |t|
  {
    if !Contains(t, CDATA_OPEN) then t else Sections(t, 0, CDATA_OPEN, CDATA_CLOSE).GetOr(t)
  }

  /** One section found at `from`: its body goes in front of the sections
      after it. */
  lemma SectionAt(t: bytes, from: nat, open: bytes, close: bytes, o: nat, start: nat, c: nat)
    requires |open| > 0
    requires FindFrom(t, open, from) == Some(o) && start == o + |open|
    requires FindFrom(t, close, start) == Some(c)
    ensures from < start <= c && c + |close| <= |t|
    ensures Sections(t, from, open, close) == Prepend(t[start..c], Sections(t, c + |close|, open, close))
  {
    assert from < start <= c && c + |close| <= |t| by {
      FindFromFound(t, open, from);
      FindFromFound(t, close, start);
    }
  }

  /** The state of the loop of `unwrap_cdata`: `acc` followed by the
      sections from `cursor` on are all the sections of the text. */
  ghost predicate Collected(text: bytes, open: bytes, close: bytes, cursor: nat, acc: bytes)
    requires |open| > 0
  {
    Sections(text, 0, open, close) == Prepend(acc, Sections(text, cursor, open, close))
  }

  lemma CollectedStart(text: bytes, open: bytes, close: bytes)
    requires |open| > 0
    ensures Collected(text, open, close, 0, [])
  {
    if Sections(text, 0, open, close).Some? {
      assert [] + Sections(text, 0, open, close).value == Sections(text, 0, open, close).value;
    }
  }

  /** One round of the loop: the section found after `cursor` is appended
      to what was collected before it. */
  lemma CollectedStep(text: bytes, open: bytes, close: bytes, cursor: nat, acc: bytes, o: nat, start: nat, c: nat)
    requires |open| > 0 && Collected(text, open, close, cursor, acc)
    requires FindFrom(text, open, cursor) == Some(o) && start == o + |open|
    requires FindFrom(text, close, start) == Some(c)
    ensures cursor < start <= c && c + |close| <= |text|
    ensures Collected(text, open, close, c + |close|, acc + text[start..c])
  {
    SectionAt(text, cursor, open, close, o, start, c);
    PrependChain(Sections(text, 0, open, close), acc, text[start..c],
      Sections(text, cursor, open, close), Sections(text, c + |close|, open, close));
  }

  /** No further opener: what was collected is the result. */
  lemma CollectedEnd(text: bytes, open: bytes, close: bytes, cursor: nat, acc: bytes)
    requires |open| > 0 && Collected(text, open, close, cursor, acc)
    requires FindFrom(text, open, cursor).None?
    ensures Sections(text, 0, open, close) == Some(acc)
  {
    assert acc + [] == acc;
  }

  /** An opener without a closer: there is no result. */
  lemma CollectedUnclosed(text: bytes, open: bytes, close: bytes, cursor: nat, acc: bytes, o: nat)
    requires |open| > 0 && Collected(text, open, close, cursor, acc)
    requires FindFrom(text, open, cursor) == Some(o)
    requires FindFrom(text, close, o + |open|).None?
    ensures Sections(text, 0, open, close).None?
  {
  }

  /** What one round of the loop of `unwrap_cdata` finds after the cursor:
      no opener, an opener without a closer, or the body of a section. */
  datatype Round = NoOpener | Unclosed | Section(start: nat, end: nat)

  /** One round of the loop: `find` for the opener on the text after the
      cursor, then for the closer after the opener. */
  method NextSection(text: bytes, open: bytes, close: bytes, cursor: nat, ghost acc: bytes) returns (r: Round)
    requires |open| > 0 && Collected(text, open, close, cursor, acc)
    ensures r.NoOpener? <==> FindFrom(text, open, cursor).None?
    ensures r.NoOpener? ==> Sections(text, 0, open, close) == Some(acc)
    ensures r.Unclosed? ==> Sections(text, 0, open, close).None?
    ensures r.Section? ==> cursor < r.start <= r.end && r.end + |close| <= |text|
    ensures r.Section? ==> Collected(text, open, close, r.end + |close|, acc + text[r.start..r.end])
  {
    var openAt := FindFrom(text, open, cursor);
    if openAt.None? {
      CollectedEnd(text, open, close, cursor, acc);
      return NoOpener;
    }
    var contentStart := openAt.value + |open|;
    var closeAt := FindFrom(text, close, contentStart);
    if closeAt.None? {
      CollectedUnclosed(text, open, close, cursor, acc, openAt.value);
      return Unclosed;
    }
    r := Section(contentStart, closeAt.value);
    CollectedStep(text, open, close, cursor, acc, openAt.value, r.start, r.end);
  }

  /** The loop of `unwrap_cdata`, for any opener and closer: `find` on the
      text after the cursor, offset by the cursor, is `FindFrom` at the
      cursor. None when no opener occurs or a section is never closed. */
  method CollectSections(text: bytes, open: bytes, close: bytes) returns (r: Option<bytes>)
    requires |open| > 0
    ensures r == if FindFrom(text, open, 0).None? then None else Sections(text, 0, open, close)
  {
    var out: Option<bytes> := None;
    var cursor := 0;
    CollectedStart(text, open, close);
    while true
      invariant out.None? ==> cursor == 0
      invariant out.Some? ==> FindFrom(text, open, 0).Some?
      invariant Collected(text, open, close, cursor, out.GetOr([]))
      decreases |text| - cursor
    {
      var acc := out.GetOr([]);
      var round := NextSection(text, open, close, cursor, acc);
      if round.NoOpener? {
        break;
      } else if round.Unclosed? {
        return None;
      }
      out, cursor := AppendSection(text, open, close, acc, round);
    }
    return out;
  }

  /** The end of a round that found a section: its body is appended to
      what was collected, and the cursor moves past the closer. */
  method AppendSection(text: bytes, open: bytes, close: bytes, acc: bytes, round: Round)
    returns (out: Option<bytes>, cursor: nat)
    requires |open| > 0 && round.Section? && round.start <= round.end && round.end + |close| <= |text|
    requires Collected(text, open, close, round.end + |close|, acc + text[round.start..round.end])
    ensures out == Some(acc + text[round.start..round.end]) && cursor == round.end + |close|
    ensures Collected(text, open, close, cursor, out.GetOr([]))
  {
    out := Some(acc + text[round.start..round.end]);
    cursor := round.end + |close|;
  }

  /** `unwrap_cdata`. */
  method UnwrapCdataSections(text: bytes) returns (r: bytes)
    ensures r == UnwrapCdata(text)
  {
    var sections := CollectSections(text, CDATA_OPEN, CDATA_CLOSE);
    if sections.None? {
      return text;
    }
    return sections.value;
  }

  /** `a + open + b` where `a` holds no opener and `b` no closer: the first
      opener is the one after `a`, and its section is never closed. The
      opener's first byte occurs nowhere else in it, so no earlier match can
      straddle the end of `a`. */
  lemma UnclosedSection(a: bytes, b: bytes, open: bytes, close: bytes)
    requires |open| > 0 && forall k | 0 < k < |open| :: open[k] != open[0]
    requires !Contains(a, open) && !Contains(b, close)
    ensures Contains(a + open + b, open)
    ensures Sections(a + open + b, 0, open, close).None?
  {
    var t := a + open + b;
    FirstOpener(a, b, open);
    assert t[|a| + |open|..] == b;
    NoMatchInSuffix(t, b, |a| + |open|, close);
  }

  /** The first opener of `a + open + b` is the one after `a`. */
  lemma FirstOpener(a: bytes, b: bytes, open: bytes)
    requires |open| > 0 && forall k | 0 < k < |open| :: open[k] != open[0]
    requires !Contains(a, open)
    ensures Find(a + open + b, open) == Some(|a|)
  {
    var t := a + open + b;
    assert MatchAt(t, open, |a|) by {
      assert t[|a|..|a| + |open|] == open;
    }
    var o := Find(t, open).value;
    assert o == |a| by {
      if o < |a| {
        assert open + b == open + b;
        assert t == a + (open + b);
        NotInPrefix(a, open + b, o, open);
      }
    }
  }

  /** Nothing is found in a suffix that holds no match. */
  lemma NoMatchInSuffix(t: bytes, b: bytes, start: nat, p: bytes)
    requires start <= |t| && t[start..] == b && !Contains(b, p)
    ensures FindFrom(t, p, start).None?
  {
    FindFromSpec(t, p, start);
    if FindFrom(t, p, start).Some? {
      var k := FindFrom(t, p, start).value;
      assert t[k..k + |p|] == b[k - start..k - start + |p|];
      assert MatchAt(b, p, k - start);
      ContainsIff(b, p);
    }
  }

  /** No match of `open` in `a + b` starts inside `a` when `a` holds none
      and `b` starts with `open`. */
  lemma NotInPrefix(a: bytes, b: bytes, o: nat, open: bytes)
    requires |open| > 0 && forall k | 0 < k < |open| :: open[k] != open[0]
    requires !Contains(a, open) && StartsWith(b, open) && o < |a|
    ensures !MatchAt(a + b, open, o)
  {
    ContainsIff(a, open);
    var s := a + b;
    if o + |open| <= |a| {
      assert a[o..o + |open|] == s[o..o + |open|];
      assert !MatchAt(a, open, o);
    } else if o + |open| <= |s| {
      var k := |a| - o;
      assert s[|a|] == b[0] == open[0];
      assert s[o..o + |open|][k] == s[|a|];
      assert open[k] != open[0];
    }
  }

  /** A CDATA section that is never closed leaves the whole text unchanged. */
  lemma UnclosedSectionKeepsText(a: bytes, b: bytes)
    requires !Contains(a, CDATA_OPEN) && !Contains(b, CDATA_CLOSE)
    ensures UnwrapCdata(a + CDATA_OPEN + b) == a + CDATA_OPEN + b
  {
    UnclosedSection(a, b, CDATA_OPEN, CDATA_CLOSE);
  }

  // ---------------------------------------------------------------------
  // Reasoning blocks

  const THINK_OPEN: bytes := "<think>"
  const THINK_CLOSE: bytes := "</think>"
  const THINKING_OPEN: bytes := "<thinking>"
  const THINKING_CLOSE: bytes := "</thinking>"
  const REASONING_OPEN: bytes := "<reasoning>"
  const REASONING_CLOSE: bytes := "</reasoning>"
  const ANALYSIS_OPEN: bytes := "<analysis>"
  const ANALYSIS_CLOSE: bytes := "</analysis>"

  /** The four reasoning wrappers, openers and closers in matching order. */
  const OPEN_TAGS: seq<bytes> := [THINK_OPEN, THINKING_OPEN, REASONING_OPEN, ANALYSIS_OPEN]
  const CLOSE_TAGS: seq<bytes> := [THINK_CLOSE, THINKING_CLOSE, REASONING_CLOSE, ANALYSIS_CLOSE]

  /** The length of the reasoning opener that starts `s`, dispatched on its
      second byte as the source does. */
  function OpenTagLen(s: bytes): (r: Option<nat>)
    ensures r.Some? ==> 7 <= r.value <= |s| && s[0] == '<'
  {
    if |s| < 2 || s[0] != '<' then None
    else if s[1] == 't' then
      if StartsWith(s, THINK_OPEN) then Some(|THINK_OPEN|)
      else if StartsWith(s, THINKING_OPEN) then Some(|THINKING_OPEN|)
      else None
    else if s[1] == 'r' then
      if StartsWith(s, REASONING_OPEN) then Some(|REASONING_OPEN|) else None
    else if s[1] == 'a' then
      if StartsWith(s, ANALYSIS_OPEN) then Some(|ANALYSIS_OPEN|) else None
    else None
  }

  /** The length of the reasoning closer that starts `s`. */
  function CloseTagLen(s: bytes): (r: Option<nat>)
    ensures r.Some? ==> 8 <= r.value <= |s| && s[0] == '<' && s[1] == '/'
  {
    if |s| < 3 || s[0] != '<' || s[1] != '/' then None
    else if s[2] == 't' then
      if StartsWith(s, THINK_CLOSE) then Some(|THINK_CLOSE|)
      else if StartsWith(s, THINKING_CLOSE) then Some(|THINKING_CLOSE|)
      else None
    else if s[2] == 'r' then
      if StartsWith(s, REASONING_CLOSE) then Some(|REASONING_CLOSE|) else None
    else if s[2] == 'a' then
      if StartsWith(s, ANALYSIS_CLOSE) then Some(|ANALYSIS_CLOSE|) else None
    else None
  }

  /** A tag recogniser: it names a length of at least one byte, within
      the text, of a tag that starts with `<`. */
  ghost predicate Recognizer(f: bytes -> Option<nat>) {
    forall s: bytes {:trigger f(s)} :: f(s).Some? ==> 0 < f(s).value <= |s| && s[0] == '<'
  }

  lemma TagLensRecognize()
    ensures Recognizer(OpenTagLen) && Recognizer(CloseTagLen)
  {
    forall s: bytes ensures OpenTagLen(s).Some? ==> 0 < OpenTagLen(s).value <= |s| && s[0] == '<' {
    }
    forall s: bytes ensures CloseTagLen(s).Some? ==> 0 < CloseTagLen(s).value <= |s| && s[0] == '<' {
    }
  }

  /** Some reasoning opener starts somewhere in `t`. */
  ghost predicate HasOpenTag(t: bytes) {
    exists k | 0 <= k < |t| :: OpenTagLen(t[k..]).Some?
  }

  /** One step of the removal at `i`, for openers recognised by `op` and
      closers by `cl`: `depth` counts the open blocks and `um` is where the
      outermost of them opened. An opener goes one level deeper, a closer
      inside a block one level up; any other byte is kept at depth 0 and
      dropped inside a block, a closer at depth 0 included. The result is
      the bytes kept and the new `i`, `depth` and `um`. */
  function Step(t: bytes, i: nat, depth: nat, um: nat, op: bytes -> Option<nat>, cl: bytes -> Option<nat>): (r: (bytes, nat, nat, nat))
    requires Recognizer(op) && Recognizer(cl) && i < |t|
    ensures i < r.1 <= |t|
  {
    var u := t[i..];
    if op(u).Some? then ([], i + op(u).value, depth + 1, if depth == 0 then i else um)
    else if depth > 0 && cl(u).Some? then ([], i + cl(u).value, depth - 1, um)
    else (if depth == 0 then [t[i]] else [], i + 1, depth, um)
  }

  /** The removal from `i` on; a block still open at the end is kept from
      its opener on. */
  function Strip(t: bytes, i: nat, depth: nat, um: nat, op: bytes -> Option<nat>, cl: bytes -> Option<nat>): bytes
    requires Recognizer(op) && Recognizer(cl)
    decreases |t| - i
  {
    if i >= |t| then (if depth > 0 && um <= |t| then t[um..] else [])
    else
      var r := Step(t, i, depth, um, op, cl);
      r.0 + Strip(t, r.1, r.2, r.3, op, cl)
  }

  /** `remove_think_blocks`: the text with every balanced reasoning block
      removed. */
  function RemoveThink(t: bytes): bytes {
    TagLensRecognize();
    Strip(t, 0, 0, 0, OpenTagLen, CloseTagLen)
  }

  /** A byte other than `<` is kept at depth 0 and dropped inside a block. */
  lemma StepPlain(t: bytes, i: nat, depth: nat, um: nat, op: bytes -> Option<nat>, cl: bytes -> Option<nat>)
    requires Recognizer(op) && Recognizer(cl) && i < |t| && t[i] != '<'
    ensures Step(t, i, depth, um, op, cl) == (if depth == 0 then [t[i]] else [], i + 1, depth, um)
  {
    assert t[i..][0] == t[i];
  }

  /** A run without `<` is copied at depth 0 and dropped inside a block. */
  lemma {:induction false} StripRun(t: bytes, i: nat, j: nat, depth: nat, um: nat, op: bytes -> Option<nat>, cl: bytes -> Option<nat>)
    requires Recognizer(op) && Recognizer(cl)
    requires i <= j <= |t|
    requires forall k | i <= k < j :: t[k] != '<'
    ensures Strip(t, i, depth, um, op, cl) == (if depth == 0 then t[i..j] else []) + Strip(t, j, depth, um, op, cl)
    decreases j - i
  {
    if i < j {
      StepPlain(t, i, depth, um, op, cl);
      var rest := Strip(t, j, depth, um, op, cl);
      assert Strip(t, i, depth, um, op, cl) == (if depth == 0 then [t[i]] else []) + Strip(t, i + 1, depth, um, op, cl);
      StripRun(t, i + 1, j, depth, um, op, cl);
      if depth == 0 {
        assert t[i..j] == [t[i]] + t[i + 1..j];
        ConcatAssoc([t[i]], t[i + 1..j], rest);
      }
    }
  }

  /** At depth 0 the recorded opener position is never read. */
  lemma {:induction false} StripDepthZero(t: bytes, i: nat, um: nat, um': nat, op: bytes -> Option<nat>, cl: bytes -> Option<nat>)
    requires Recognizer(op) && Recognizer(cl)
    ensures Strip(t, i, 0, um, op, cl) == Strip(t, i, 0, um', op, cl)
    decreases |t| - i
  {
    if i < |t| && op(t[i..]).None? {
      StripDepthZero(t, i + 1, um, um', op, cl);
    }
  }

  /** Text without any opener from `i` on is kept as it is. */
  lemma {:induction false} StripNoOpen(t: bytes, i: nat, um: nat, op: bytes -> Option<nat>, cl: bytes -> Option<nat>)
    requires Recognizer(op) && Recognizer(cl)
    requires i <= |t|
    requires forall k | i <= k < |t| :: op(t[k..]).None?
    ensures Strip(t, i, 0, um, op, cl) == t[i..]
    decreases |t| - i
  {
    if i < |t| {
      StripNoOpen(t, i + 1, um, op, cl);
      assert t[i..] == [t[i]] + t[i + 1..];
    }
  }

  /** Text without a reasoning opener is returned unchanged: the fast path
      of the source returns what the loop would. */
  lemma RemoveThinkNoOpen(t: bytes)
    requires !HasOpenTag(t)
    ensures RemoveThink(t) == t
  {
    TagLensRecognize();
    StripNoOpen(t, 0, 0, OpenTagLen, CloseTagLen);
  }

  /** The removal never lengthens the text; inside a block, what is left
      is at most the text from the outermost opener on. */
  lemma {:induction false} StripShorter(t: bytes, i: nat, depth: nat, um: nat, op: bytes -> Option<nat>, cl: bytes -> Option<nat>)
    requires Recognizer(op) && Recognizer(cl)
    requires i <= |t| && um <= i
    ensures |Strip(t, i, depth, um, op, cl)| <= if depth == 0 then |t| - i else |t| - um
    decreases |t| - i
  {
    if i < |t| {
      var r := Step(t, i, depth, um, op, cl);
      StripShorter(t, r.1, r.2, r.3, op, cl);
    }
  }

  lemma RemoveThinkShorter(t: bytes)
    ensures |RemoveThink(t)| <= |t|
  {
    TagLensRecognize();
    StripShorter(t, 0, 0, 0, OpenTagLen, CloseTagLen);
  }

  /** Inside a block, a byte that starts neither an opener nor a closer is
      dropped. */
  lemma StripSkip(t: bytes, i: nat, depth: nat, um: nat, op: bytes -> Option<nat>, cl: bytes -> Option<nat>)
    requires Recognizer(op) && Recognizer(cl)
    requires i < |t| && depth > 0 && op(t[i..]).None? && cl(t[i..]).None?
    ensures Strip(t, i, depth, um, op, cl) == Strip(t, i + 1, depth, um, op, cl)
  {
    StripUnfold(t, i, depth, um, op, cl);
    var rest := Strip(t, i + 1, depth, um, op, cl);
    assert [] + rest == rest;
  }

  /** `contains_reasoning_open_tag`: jump from `<` to `<` and look for an
      opener there; a `<` that is the last byte ends the search. */
  method ContainsReasoningOpenTag(text: bytes) returns (r: bool)
    ensures r <==> HasOpenTag(text)
  {
    var cursor := 0;
    while cursor < |text|
      invariant cursor <= |text|
      invariant forall k | 0 <= k < cursor :: OpenTagLen(text[k..]).None?
      decreases |text| - cursor
    {
      var rel := FindByte(text[cursor..], '<', 0);
      if rel.None? {
        assert forall k | cursor <= k < |text| :: text[k..][0] == text[cursor..][k - cursor];
        break;
      }
      var abs := cursor + rel.value;
      assert forall k | cursor <= k < abs :: text[k..][0] == text[cursor..][k - cursor];
      if abs + 1 >= |text| {
        assert OpenTagLen(text[abs..]).None?;
        break;
      }
      if OpenTagLen(text[abs..]).Some? {
        return true;
      }
      cursor := abs + 1;
    }
    return false;
  }

  /** The removal's position in the text, as the source keeps it: the
      outermost open block's start is `None` at depth 0. */
  function Outermost(unmatched: Option<nat>): nat {
    unmatched.GetOr(0)
  }

  /** What one round of `remove_think_blocks` does at a `<` at `abs`:
      the bytes it keeps and the position, depth and outermost opener
      after it. */
  method TagRound(text: bytes, abs: nat, depth: nat, unmatched: Option<nat>)
    returns (kept: bytes, next: nat, depth': nat, unmatched': Option<nat>)
    requires abs < |text| && text[abs] == '<' && (depth > 0 ==> unmatched.Some? && unmatched.value <= abs)
    ensures abs < next <= |text|
    ensures depth' > 0 ==> unmatched'.Some? && unmatched'.value <= next
    ensures Strip(text, abs, depth, Outermost(unmatched), OpenTagLen, CloseTagLen)
      == kept + Strip(text, next, depth', Outermost(unmatched'), OpenTagLen, CloseTagLen)
  {
    TagLensRecognize();
    var u := text[abs..];
    var openLen := OpenTagLen(u);
    if openLen.Some? {
      unmatched' := if depth == 0 then Some(abs) else unmatched;
      kept, next, depth' := [], abs + openLen.value, depth + 1;
      StripAtOpen(text, abs, depth, Outermost(unmatched), OpenTagLen, CloseTagLen, openLen.value, next, depth', Outermost(unmatched'));
      assert [] + Strip(text, next, depth', Outermost(unmatched'), OpenTagLen, CloseTagLen)
        == Strip(text, next, depth', Outermost(unmatched'), OpenTagLen, CloseTagLen);
      return;
    }
    var closeLen := CloseTagLen(u);
    if closeLen.Some? && depth > 0 {
      kept, next, depth' := [], abs + closeLen.value, depth - 1;
      unmatched' := if depth' == 0 then None else unmatched;
      StripAtClose(text, abs, depth, Outermost(unmatched), OpenTagLen, CloseTagLen, closeLen.value, next, depth');
      if depth' == 0 {
        StripDepthZero(text, next, Outermost(unmatched), 0, OpenTagLen, CloseTagLen);
      }
      assert [] + Strip(text, next, depth', Outermost(unmatched'), OpenTagLen, CloseTagLen)
        == Strip(text, next, depth', Outermost(unmatched'), OpenTagLen, CloseTagLen);
      return;
    }
    next, depth', unmatched' := abs + 1, depth, unmatched;
    if depth == 0 {
      kept := ['<'];
      StripKeep(text, abs, Outermost(unmatched), OpenTagLen, CloseTagLen);
    } else {
      kept := [];
      StripSkip(text, abs, depth, Outermost(unmatched), OpenTagLen, CloseTagLen);
      assert [] + Strip(text, next, depth', Outermost(unmatched'), OpenTagLen, CloseTagLen)
        == Strip(text, next, depth', Outermost(unmatched'), OpenTagLen, CloseTagLen);
    }
  }

  /** One round of the loop of `remove_think_blocks` from `i`: the run up
      to the next `<` (all of the rest when there is none), then that `<`. */
  method ThinkRound(text: bytes, i: nat, depth: nat, unmatched: Option<nat>)
    returns (kept: bytes, next: nat, depth': nat, unmatched': Option<nat>)
    requires i < |text| && (depth > 0 ==> unmatched.Some? && unmatched.value <= i)
    ensures i < next <= |text|
    ensures depth' > 0 ==> unmatched'.Some? && unmatched'.value <= next
    ensures Strip(text, i, depth, Outermost(unmatched), OpenTagLen, CloseTagLen)
      == kept + Strip(text, next, depth', Outermost(unmatched'), OpenTagLen, CloseTagLen)
  {
    TagLensRecognize();
    var rel := FindByte(text[i..], '<', 0);
    if rel.None? {
      kept := if depth == 0 then text[i..] else [];
      next, depth', unmatched' := |text|, depth, unmatched;
      assert forall k | i <= k < |text| :: text[k] == text[i..][k - i];
      StripRun(text, i, |text|, depth, Outermost(unmatched), OpenTagLen, CloseTagLen);
      return;
    }
    var abs := i + rel.value;
    assert forall k | i <= k < abs :: text[k] == text[i..][k - i];
    StripRun(text, i, abs, depth, Outermost(unmatched), OpenTagLen, CloseTagLen);
    var run := if depth == 0 then text[i..abs] else [];
    var tagKept;
    tagKept, next, depth', unmatched' := TagRound(text, abs, depth, unmatched);
    kept := run + tagKept;
    ConcatAssoc(run, tagKept, Strip(text, next, depth', Outermost(unmatched'), OpenTagLen, CloseTagLen));
  }

  /** `remove_think_blocks`: text without an opener is returned as it is;
      otherwise the loop keeps what lies outside reasoning blocks and, when
      a block is still open at the end, the text from its opener on. */
  method RemoveThinkBlocks(text: bytes) returns (r: bytes)
    ensures r == RemoveThink(text)
  {
    var has := ContainsReasoningOpenTag(text);
    if !has {
      RemoveThinkNoOpen(text);
      return text;
    }
    TagLensRecognize();
    var out: bytes := [];
    var i, depth := 0, 0;
    var unmatched: Option<nat> := None;
    while i < |text|
      invariant i <= |text|
      invariant depth > 0 ==> unmatched.Some? && unmatched.value <= i
      invariant out + Strip(text, i, depth, Outermost(unmatched), OpenTagLen, CloseTagLen) == RemoveThink(text)
      decreases |text| - i
    {
      var kept;
      kept, i, depth, unmatched := ThinkRound(text, i, depth, unmatched);
      ConcatAssoc(out, kept, Strip(text, i, depth, Outermost(unmatched), OpenTagLen, CloseTagLen));
      out := out + kept;
    }
    if depth > 0 {
      out := out + text[unmatched.value..];
    } else {
      assert out + [] == out;
    }
    return out;
  }

  /** A step depends only on the bytes from its position on. */
  lemma StepSuffix(s: bytes, t: bytes, k: nat, i: nat, depth: nat, v: nat, um: nat, op: bytes -> Option<nat>, cl: bytes -> Option<nat>)
    requires Recognizer(op) && Recognizer(cl)
    requires k < |s| && i < |t| && s[k..] == t[i..]
    requires v <= |s| && um <= |t| && s[v..] == t[um..]
    ensures var a, b := Step(s, k, depth, v, op, cl), Step(t, i, depth, um, op, cl);
      a.0 == b.0 && a.1 - k == b.1 - i && a.2 == b.2 && a.3 <= |s| && b.3 <= |t|
      && s[a.1..] == t[b.1..] && s[a.3..] == t[b.3..]
  {
    var u := t[i..];
    assert s[k] == u[0] == t[i];
    var a, b := Step(s, k, depth, v, op, cl), Step(t, i, depth, um, op, cl);
    assert s[a.1..] == u[a.1 - k..] == t[b.1..];
  }

  /** The removal looks only at the bytes from its position on: two texts
      that agree from there (and from the recorded opener) give the same
      result. */
  lemma {:induction false} StripSuffix(s: bytes, t: bytes, k: nat, i: nat, depth: nat, v: nat, um: nat, op: bytes -> Option<nat>, cl: bytes -> Option<nat>)
    requires Recognizer(op) && Recognizer(cl)
    requires k <= |s| && i <= |t| && s[k..] == t[i..]
    requires v <= |s| && um <= |t| && s[v..] == t[um..]
    ensures Strip(s, k, depth, v, op, cl) == Strip(t, i, depth, um, op, cl)
    decreases |t| - i
  {
    if i < |t| {
      StepSuffix(s, t, k, i, depth, v, um, op, cl);
      var a, b := Step(s, k, depth, v, op, cl), Step(t, i, depth, um, op, cl);
      StripSuffix(s, t, a.1, b.1, a.2, a.3, b.3, op, cl);
    }
  }

  lemma StartsWithPrefix(tag: bytes, rest: bytes)
    ensures StartsWith(tag + rest, tag)
  {
    assert (tag + rest)[..|tag|] == tag;
  }

  /** Every opener is recognised as itself, whatever follows it. */
  lemma OpenTagOf(k: nat, rest: bytes)
    requires k < 4
    ensures OpenTagLen(OPEN_TAGS[k] + rest) == Some(|OPEN_TAGS[k]|)
  {
    var s := OPEN_TAGS[k] + rest;
    StartsWithPrefix(OPEN_TAGS[k], rest);
    assert s[0] == '<' && s[1] == OPEN_TAGS[k][1];
    if k == 1 {
      assert s[..7][6] == s[6] == 'i';
    }
  }

  /** Every closer is recognised as itself, and as no opener. */
  lemma CloseTagOf(k: nat, rest: bytes)
    requires k < 4
    ensures CloseTagLen(CLOSE_TAGS[k] + rest) == Some(|CLOSE_TAGS[k]|)
    ensures OpenTagLen(CLOSE_TAGS[k] + rest).None?
    ensures forall q | 0 < q < |CLOSE_TAGS[k]| :: CLOSE_TAGS[k][q] != '<'
  {
    var s := CLOSE_TAGS[k] + rest;
    StartsWithPrefix(CLOSE_TAGS[k], rest);
    assert s[0] == '<' && s[1] == '/' && s[2] == CLOSE_TAGS[k][2];
    if k == 1 {
      assert s[..8][7] == s[7] == 'i';
    }
  }

  /** The removal at `i` is the step there followed by the removal after it. */
  lemma StripUnfold(t: bytes, i: nat, depth: nat, um: nat, op: bytes -> Option<nat>, cl: bytes -> Option<nat>)
    requires Recognizer(op) && Recognizer(cl) && i < |t|
    ensures var r := Step(t, i, depth, um, op, cl);
      Strip(t, i, depth, um, op, cl) == r.0 + Strip(t, r.1, r.2, r.3, op, cl)
  {
  }

  lemma StepAtOpen(t: bytes, i: nat, depth: nat, um: nat, op: bytes -> Option<nat>, cl: bytes -> Option<nat>, n: nat)
    requires Recognizer(op) && Recognizer(cl)
    requires i < |t| && op(t[i..]) == Some(n)
    ensures Step(t, i, depth, um, op, cl) == ([], i + n, depth + 1, if depth == 0 then i else um)
  {
  }

  lemma StepAtClose(t: bytes, i: nat, depth: nat, um: nat, op: bytes -> Option<nat>, cl: bytes -> Option<nat>, n: nat)
    requires Recognizer(op) && Recognizer(cl)
    requires i < |t| && op(t[i..]).None? && cl(t[i..]) == Some(n)
    ensures Step(t, i, depth + 1, um, op, cl) == ([], i + n, depth, um)
  {
  }

  /** At an opener the removal goes one level deeper, landing at `i1`
      with depth `d1` and outermost opener `um1`. */
  lemma StripAtOpen(t: bytes, i: nat, depth: nat, um: nat, op: bytes -> Option<nat>, cl: bytes -> Option<nat>,
                    n: nat, i1: nat, d1: nat, um1: nat)
    requires Recognizer(op) && Recognizer(cl)
    requires i < |t| && op(t[i..]) == Some(n)
    requires i1 == i + n && d1 == depth + 1 && um1 == if depth == 0 then i else um
    ensures Strip(t, i, depth, um, op, cl) == Strip(t, i1, d1, um1, op, cl)
  {
    StripUnfold(t, i, depth, um, op, cl);
    StepAtOpen(t, i, depth, um, op, cl, n);
    var rest := Strip(t, i1, d1, um1, op, cl);
    assert [] + rest == rest;
  }

  /** At a closer inside a block the removal goes one level up. */
  lemma StripAtClose(t: bytes, i: nat, d1: nat, um: nat, op: bytes -> Option<nat>, cl: bytes -> Option<nat>,
                     n: nat, i1: nat, depth: nat)
    requires Recognizer(op) && Recognizer(cl)
    requires i < |t| && op(t[i..]).None? && cl(t[i..]) == Some(n)
    requires d1 == depth + 1 && i1 == i + n
    ensures Strip(t, i, d1, um, op, cl) == Strip(t, i1, depth, um, op, cl)
  {
    StripUnfold(t, i, depth + 1, um, op, cl);
    StepAtClose(t, i, depth, um, op, cl, n);
    var rest := Strip(t, i1, depth, um, op, cl);
    assert [] + rest == rest;
  }

  /** At depth 0 a byte that starts no opener is kept, a closer included. */
  lemma StripKeep(t: bytes, i: nat, um: nat, op: bytes -> Option<nat>, cl: bytes -> Option<nat>)
    requires Recognizer(op) && Recognizer(cl)
    requires i < |t| && op(t[i..]).None?
    ensures Strip(t, i, 0, um, op, cl) == [t[i]] + Strip(t, i + 1, 0, um, op, cl)
  {
    StripUnfold(t, i, 0, um, op, cl);
  }

  /** Inside a block, a run without `<` up to a closer at `j` is skipped
      and the closer ends one level. */
  lemma RunToClose(t: bytes, i: nat, j: nat, d1: nat, um: nat, op: bytes -> Option<nat>, cl: bytes -> Option<nat>,
                   m: nat, j1: nat, depth: nat)
    requires Recognizer(op) && Recognizer(cl)
    requires i <= j < |t| && op(t[j..]).None? && cl(t[j..]) == Some(m)
    requires forall x | i <= x < j :: t[x] != '<'
    requires d1 == depth + 1 && j1 == j + m
    ensures Strip(t, i, d1, um, op, cl) == Strip(t, j1, depth, um, op, cl)
  {
    var atClose := Strip(t, j, d1, um, op, cl);
    assert Strip(t, i, d1, um, op, cl) == atClose by {
      StripRun(t, i, j, d1, um, op, cl);
      assert [] + atClose == atClose;
    }
    StripAtClose(t, j, d1, um, op, cl, m, j1, depth);
  }

  /** A whole block, opener at `i` and closer at `j` with no `<` between
      them, is skipped at any depth. */
  lemma BlockAt(t: bytes, i: nat, j: nat, depth: nat, um: nat, op: bytes -> Option<nat>, cl: bytes -> Option<nat>,
                n: nat, m: nat, j1: nat, um1: nat)
    requires Recognizer(op) && Recognizer(cl)
    requires i < |t| && op(t[i..]) == Some(n) && i + n <= j
    requires j < |t| && op(t[j..]).None? && cl(t[j..]) == Some(m)
    requires forall x | i + n <= x < j :: t[x] != '<'
    requires j1 == j + m && um1 == if depth == 0 then i else um
    ensures Strip(t, i, depth, um, op, cl) == Strip(t, j1, depth, um1, op, cl)
  {
    var i1 := i + n;
    var inside := Strip(t, i1, depth + 1, um1, op, cl);
    assert Strip(t, i, depth, um, op, cl) == inside by {
      StripAtOpen(t, i, depth, um, op, cl, n, i1, depth + 1, um1);
    }
    RunToClose(t, i1, j, depth + 1, um1, op, cl, m, j1, depth);
  }

  /** Each reasoning opener is recognised where it occurs. */
  lemma OpenTagAt(t: bytes, i: nat, k: nat)
    requires k < 4 && MatchAt(t, OPEN_TAGS[k], i)
    ensures i < |t| && OpenTagLen(t[i..]) == Some(|OPEN_TAGS[k]|)
  {
    var o := OPEN_TAGS[k];
    assert t[i..] == o + t[i + |o|..];
    OpenTagOf(k, t[i + |o|..]);
  }

  /** Each reasoning closer is recognised where it occurs, as no opener,
      and holds no other `<`. */
  lemma CloseTagAt(t: bytes, j: nat, k: nat)
    requires k < 4 && MatchAt(t, CLOSE_TAGS[k], j)
    ensures j < |t| && CloseTagLen(t[j..]) == Some(|CLOSE_TAGS[k]|) && OpenTagLen(t[j..]).None?
    ensures forall x | j < x < j + |CLOSE_TAGS[k]| :: t[x] != '<'
  {
    var c := CLOSE_TAGS[k];
    assert t[j..] == c + t[j + |c|..];
    CloseTagOf(k, t[j + |c|..]);
    forall x | j < x < j + |c| ensures t[x] != '<' {
      assert t[x] == c[x - j];
    }
  }

  /** From a position where the text reads `b`, at depth 0, the removal
      goes on as on `b` alone. */
  lemma StripFrom(t: bytes, j: nat, b: bytes, um: nat, op: bytes -> Option<nat>, cl: bytes -> Option<nat>)
    requires Recognizer(op) && Recognizer(cl)
    requires j <= |t| && t[j..] == b
    ensures Strip(t, j, 0, um, op, cl) == Strip(b, 0, 0, 0, op, cl)
  {
    StripDepthZero(t, j, um, j, op, cl);
    assert b[0..] == b;
    StripSuffix(t, b, j, 0, 0, j, 0, op, cl);
  }

  /** A prefix without `<` is kept in front of what the removal gives
      after it. */
  lemma PrefixThen(t: bytes, i: nat, r: bytes, op: bytes -> Option<nat>, cl: bytes -> Option<nat>)
    requires Recognizer(op) && Recognizer(cl)
    requires i <= |t| && forall x | 0 <= x < i :: t[x] != '<'
    requires Strip(t, i, 0, 0, op, cl) == r
    ensures Strip(t, 0, 0, 0, op, cl) == t[0..i] + r
  {
    StripRun(t, 0, i, 0, 0, op, cl);
  }

  /** A block from `i`, then `b` from `e`, at depth 0: the block is
      skipped. */
  lemma BlockFrom(t: bytes, b: bytes, i: nat, j: nat, e: nat, op: bytes -> Option<nat>, cl: bytes -> Option<nat>, n: nat, m: nat)
    requires Recognizer(op) && Recognizer(cl)
    requires i < |t| && op(t[i..]) == Some(n) && i + n <= j
    requires j < |t| && op(t[j..]).None? && cl(t[j..]) == Some(m)
    requires forall x | i + n <= x < j :: t[x] != '<'
    requires e == j + m && t[e..] == b
    ensures Strip(t, i, 0, 0, op, cl) == Strip(b, 0, 0, 0, op, cl)
  {
    BlockAt(t, i, j, 0, 0, op, cl, n, m, e, i);
    StripFrom(t, e, b, i, op, cl);
  }

  /** The positions of the parts of `a + x + m + y + b`. */
  lemma Parts(a: bytes, x: bytes, m: bytes, y: bytes, b: bytes)
    ensures var t := a + x + m + y + b;
      var i, j := |a|, |a| + |x| + |m|;
      t[..i] == a && MatchAt(t, x, i) && MatchAt(t, y, j) && t[j + |y|..] == b
      && forall q | i + |x| <= q < j :: t[q] == m[q - i - |x|]
  {
    var t := a + x + m + y + b;
    var i, j := |a|, |a| + |x| + |m|;
    assert t[i..i + |x|] == (a + x)[i..];
    assert t[j..j + |y|] == (a + x + m + y)[j..];
  }

  lemma NoLtRun(t: bytes, i: nat, j: nat, m: bytes)
    requires i <= j <= |t| && |m| == j - i && !HasByte(m, '<')
    requires forall q | i <= q < j :: t[q] == m[q - i]
    ensures forall q | i <= q < j :: t[q] != '<'
  {
    forall q | i <= q < j ensures t[q] != '<' {
      assert t[q] == m[q - i];
    }
  }

  /** A reasoning block is removed with its tags, and the removal goes on
      after it. */
  lemma BlockRemoved(a: bytes, k: nat, mid: bytes, b: bytes)
    requires k < 4
    requires !HasByte(a, '<') && !HasByte(mid, '<')
    ensures RemoveThink(a + OPEN_TAGS[k] + mid + CLOSE_TAGS[k] + b) == a + RemoveThink(b)
  {
    TagLensRecognize();
    var o, c := OPEN_TAGS[k], CLOSE_TAGS[k];
    var t := a + o + mid + c + b;
    var i, j := |a|, |a| + |o| + |mid|;
    Parts(a, o, mid, c, b);
    NoLtRun(t, 0, i, a);
    NoLtRun(t, i + |o|, j, mid);
    OpenTagAt(t, i, k);
    CloseTagAt(t, j, k);
    BlockFrom(t, b, i, j, j + |c|, OpenTagLen, CloseTagLen, |o|, |c|);
    PrefixThen(t, i, RemoveThink(b), OpenTagLen, CloseTagLen);
    assert t[0..i] == a;
  }

  lemma MatchFromSlices(t: bytes, n: nat, x: bytes, y: bytes, z: bytes)
    requires n <= |t|
    ensures t[..n] == x + y ==> MatchAt(t, y, |x|)
    ensures t[n..] == y + z ==> MatchAt(t, y, n)
  {
    if t[..n] == x + y {
      assert t[|x|..|x| + |y|] == (x + y)[|x|..];
    }
    if t[n..] == y + z {
      assert t[n..n + |y|] == (y + z)[..|y|];
    }
  }

  /** An opener at `i` and a whole block at `i2` right after it, at depth
      0: the removal is inside the outer block after the inner one. */
  lemma OpenThenBlock(t: bytes, i: nat, i2: nat, j2: nat, j1: nat,
                      op: bytes -> Option<nat>, cl: bytes -> Option<nat>, n1: nat, n2: nat, m2: nat)
    requires Recognizer(op) && Recognizer(cl)
    requires i < |t| && op(t[i..]) == Some(n1) && i2 == i + n1
    requires i2 < |t| && op(t[i2..]) == Some(n2) && i2 + n2 <= j2
    requires j2 < |t| && op(t[j2..]).None? && cl(t[j2..]) == Some(m2) && j1 == j2 + m2
    requires forall x | i2 + n2 <= x < j2 :: t[x] != '<'
    ensures Strip(t, i, 0, 0, op, cl) == Strip(t, j1, 1, i, op, cl)
  {
    StripAtOpen(t, i, 0, 0, op, cl, n1, i2, 1, i);
    BlockAt(t, i2, j2, 1, i, op, cl, n2, m2, j1, i);
  }

  /** The outer opener at `i`, the inner block and the outer closer at
      `j1`, then `b` from `e`: all of it is skipped. */
  lemma NestedFrom(t: bytes, b: bytes, i: nat, i2: nat, j2: nat, j1: nat, e: nat,
                   op: bytes -> Option<nat>, cl: bytes -> Option<nat>, n1: nat, n2: nat, m2: nat, m1: nat)
    requires Recognizer(op) && Recognizer(cl)
    requires i < |t| && op(t[i..]) == Some(n1) && i2 == i + n1
    requires i2 < |t| && op(t[i2..]) == Some(n2) && i2 + n2 <= j2
    requires j2 < |t| && op(t[j2..]).None? && cl(t[j2..]) == Some(m2) && j1 == j2 + m2
    requires j1 < |t| && op(t[j1..]).None? && cl(t[j1..]) == Some(m1) && e == j1 + m1
    requires forall x | i2 + n2 <= x < j2 :: t[x] != '<'
    requires t[e..] == b
    ensures Strip(t, i, 0, 0, op, cl) == Strip(b, 0, 0, 0, op, cl)
  {
    var afterInner := Strip(t, j1, 1, i, op, cl);
    assert Strip(t, i, 0, 0, op, cl) == afterInner by {
      OpenThenBlock(t, i, i2, j2, j1, op, cl, n1, n2, m2);
    }
    assert afterInner == Strip(t, e, 0, i, op, cl) by {
      StripAtClose(t, j1, 1, i, op, cl, m1, e, 0);
    }
    StripFrom(t, e, b, i, op, cl);
  }

  /** The positions of the parts of `a + o1 + o2 + m + c2 + c1 + b`. */
  lemma NestedLayout(a: bytes, o1: bytes, o2: bytes, m: bytes, c2: bytes, c1: bytes, b: bytes)
    requires !HasByte(a, '<') && !HasByte(m, '<')
    ensures var t := a + o1 + o2 + m + c2 + c1 + b;
      var i := |a|;
      var i2 := i + |o1|;
      var j2 := i2 + |o2| + |m|;
      var j1 := j2 + |c2|;
      && t[0..i] == a && (forall x | 0 <= x < i :: t[x] != '<')
      && MatchAt(t, o1, i) && MatchAt(t, o2, i2) && MatchAt(t, c2, j2) && MatchAt(t, c1, j1)
      && (forall x | i2 + |o2| <= x < j2 :: t[x] != '<')
      && t[j1 + |c1|..] == b
  {
    var t := a + o1 + o2 + m + c2 + c1 + b;
    ConcatAssoc(a + o1 + o2 + m + c2, c1, b);
    var i, i2, j2 := |a|, |a| + |o1|, |a| + |o1| + |o2| + |m|;
    var j1 := j2 + |c2|;
    Parts(a + o1, o2, m, c2, c1 + b);
    MatchFromSlices(t, i2, a, o1, []);
    MatchFromSlices(t, j1, [], c1, b);
    assert t[..i] == (a + o1)[..i] == a;
    assert t[0..i] == a;
    NoLtRun(t, 0, i, a);
    NoLtRun(t, i2 + |o2|, j2, m);
    assert t[j1 + |c1|..] == t[j1..][|c1|..] == (c1 + b)[|c1|..] == b;
  }

  /** The tags of two nested blocks, recognised where they occur. */
  lemma NestedTags(t: bytes, i: nat, i2: nat, j2: nat, j1: nat, k1: nat, k2: nat)
    requires k1 < 4 && k2 < 4
    requires MatchAt(t, OPEN_TAGS[k1], i) && MatchAt(t, OPEN_TAGS[k2], i2)
    requires MatchAt(t, CLOSE_TAGS[k2], j2) && MatchAt(t, CLOSE_TAGS[k1], j1)
    ensures i < |t| && OpenTagLen(t[i..]) == Some(|OPEN_TAGS[k1]|)
    ensures i2 < |t| && OpenTagLen(t[i2..]) == Some(|OPEN_TAGS[k2]|)
    ensures j2 < |t| && CloseTagLen(t[j2..]) == Some(|CLOSE_TAGS[k2]|) && OpenTagLen(t[j2..]).None?
    ensures j1 < |t| && CloseTagLen(t[j1..]) == Some(|CLOSE_TAGS[k1]|) && OpenTagLen(t[j1..]).None?
  {
    OpenTagAt(t, i, k1);
    OpenTagAt(t, i2, k2);
    CloseTagAt(t, j2, k2);
    CloseTagAt(t, j1, k1);
  }

  /** Nested blocks are removed together: the inner closer does not end
      the outer block. */
  lemma NestedBlockRemoved(a: bytes, k1: nat, k2: nat, m: bytes, b: bytes)
    requires k1 < 4 && k2 < 4
    requires !HasByte(a, '<') && !HasByte(m, '<')
    ensures RemoveThink(a + OPEN_TAGS[k1] + OPEN_TAGS[k2] + m + CLOSE_TAGS[k2] + CLOSE_TAGS[k1] + b)
         == a + RemoveThink(b)
  {
    TagLensRecognize();
    var o1, o2, c2, c1 := OPEN_TAGS[k1], OPEN_TAGS[k2], CLOSE_TAGS[k2], CLOSE_TAGS[k1];
    var t := a + o1 + o2 + m + c2 + c1 + b;
    var i, i2, j2 := |a|, |a| + |o1|, |a| + |o1| + |o2| + |m|;
    var j1 := j2 + |c2|;
    NestedLayout(a, o1, o2, m, c2, c1, b);
    NestedTags(t, i, i2, j2, j1, k1, k2);
    NestedFrom(t, b, i, i2, j2, j1, j1 + |c1|, OpenTagLen, CloseTagLen, |o1|, |o2|, |c2|, |c1|);
    PrefixThen(t, i, RemoveThink(b), OpenTagLen, CloseTagLen);
  }

  /** A block that is never closed is kept verbatim, from its opener on. */
  lemma UnclosedBlockKept(a: bytes, k: nat, m: bytes)
    requires k < 4 && !HasByte(a, '<') && !HasByte(m, '<')
    ensures RemoveThink(a + OPEN_TAGS[k] + m) == a + OPEN_TAGS[k] + m
  {
    TagLensRecognize();
    var o := OPEN_TAGS[k];
    var t := a + o + m;
    var i := |a|;
    Parts(a, o, m, [], []);
    assert a + o + m + [] + [] == t;
    NoLtRun(t, 0, i, a);
    NoLtRun(t, i + |o|, |t|, m);
    OpenTagAt(t, i, k);
    UnclosedStrip(t, i, OpenTagLen, CloseTagLen, |o|);
  }

  /** A text without `<` but for an opener at `i`: nothing is removed. */
  lemma UnclosedStrip(t: bytes, i: nat, op: bytes -> Option<nat>, cl: bytes -> Option<nat>, n: nat)
    requires Recognizer(op) && Recognizer(cl)
    requires i <= |t| && forall x | 0 <= x < i :: t[x] != '<'
    requires i < |t| && op(t[i..]) == Some(n)
    requires forall x | i + n <= x < |t| :: t[x] != '<'
    ensures Strip(t, 0, 0, 0, op, cl) == t
  {
    StripRun(t, 0, i, 0, 0, op, cl);
    OpenToEnd(t, i, op, cl, n);
    assert t[0..i] + t[i..] == t;
  }

  /** An opener at `i` that is never closed: the text from it is kept. */
  lemma OpenToEnd(t: bytes, i: nat, op: bytes -> Option<nat>, cl: bytes -> Option<nat>, n: nat)
    requires Recognizer(op) && Recognizer(cl)
    requires i < |t| && op(t[i..]) == Some(n)
    requires forall x | i + n <= x < |t| :: t[x] != '<'
    ensures Strip(t, i, 0, 0, op, cl) == t[i..]
  {
    StripAtOpen(t, i, 0, 0, op, cl, n, i + n, 1, i);
    RunToEnd(t, i + n, 1, i, op, cl);
  }

  /** Inside a block, a run without `<` to the end: the text from the
      outermost opener is kept. */
  lemma RunToEnd(t: bytes, j: nat, depth: nat, um: nat, op: bytes -> Option<nat>, cl: bytes -> Option<nat>)
    requires Recognizer(op) && Recognizer(cl)
    requires 0 < depth && um <= j <= |t|
    requires forall x | j <= x < |t| :: t[x] != '<'
    ensures Strip(t, j, depth, um, op, cl) == t[um..]
  {
    StripRun(t, j, |t|, depth, um, op, cl);
    var atEnd := Strip(t, |t|, depth, um, op, cl);
    assert [] + atEnd == atEnd;
  }

  /** A closer outside any block is kept as text. */
  lemma StrayCloseKept(a: bytes, k: nat, b: bytes)
    requires k < 4 && !HasByte(a, '<')
    ensures RemoveThink(a + CLOSE_TAGS[k] + b) == a + CLOSE_TAGS[k] + RemoveThink(b)
  {
    TagLensRecognize();
    var c := CLOSE_TAGS[k];
    var t := a + c + b;
    var i := |a|;
    Parts(a, [], [], c, b);
    assert a + [] + [] + c + b == t;
    NoLtRun(t, 0, i, a);
    CloseTagAt(t, i, k);
    StrayFrom(t, b, i, |c|, OpenTagLen, CloseTagLen);
    assert t[i..i + |c|] == c;
    PrefixThen(t, i, c + RemoveThink(b), OpenTagLen, CloseTagLen);
    assert t[0..i] == a;
    ConcatAssoc(a, c, RemoveThink(b));
  }

  /** A closer at `i`, then `b`, at depth 0: the closer is kept. */
  lemma StrayFrom(t: bytes, b: bytes, i: nat, n: nat, op: bytes -> Option<nat>, cl: bytes -> Option<nat>)
    requires Recognizer(op) && Recognizer(cl)
    requires i < |t| && 0 < n && i + n <= |t| && op(t[i..]).None?
    requires forall x | i < x < i + n :: t[x] != '<'
    requires t[i + n..] == b
    ensures Strip(t, i, 0, 0, op, cl) == t[i..i + n] + Strip(b, 0, 0, 0, op, cl)
  {
    StrayClose(t, i, n, 0, op, cl);
    StripFrom(t, i + n, b, 0, op, cl);
  }

  /** At depth 0 a closer (a `<` that starts no opener, followed by bytes
      other than `<`) is kept as text. */
  lemma StrayClose(t: bytes, i: nat, n: nat, um: nat, op: bytes -> Option<nat>, cl: bytes -> Option<nat>)
    requires Recognizer(op) && Recognizer(cl)
    requires i < |t| && 0 < n && i + n <= |t| && op(t[i..]).None?
    requires forall x | i < x < i + n :: t[x] != '<'
    ensures Strip(t, i, 0, um, op, cl) == t[i..i + n] + Strip(t, i + n, 0, um, op, cl)
  {
    var rest := Strip(t, i + n, 0, um, op, cl);
    var run := t[i + 1..i + n];
    assert Strip(t, i, 0, um, op, cl) == [t[i]] + Strip(t, i + 1, 0, um, op, cl) by {
      StripKeep(t, i, um, op, cl);
    }
    assert Strip(t, i + 1, 0, um, op, cl) == run + rest by {
      StripRun(t, i + 1, i + n, 0, um, op, cl);
    }
    assert t[i..i + n] == [t[i]] + run;
    ConcatAssoc([t[i]], run, rest);
  }

  // ---------------------------------------------------------------------
  // Call ids

  const MAX_CALL_ID_LEN: nat := 128
  const ID_OPEN: bytes := "<id>"
  const ID_CLOSE: bytes := "</id>"
  const TOOL_CALL_ID_OPEN: bytes := "<tool_call_id>"
  const TOOL_CALL_ID_CLOSE: bytes := "</tool_call_id>"

  predicate IsCallIdByte(b: byte) { IsAsciiAlnum(b) || b == '_' || b == '-' }

  /** An id the parser passes on: 1 to 128 bytes of `[A-Za-z0-9_-]`. */
  predicate ValidCallId(s: bytes) {
    0 < |s| <= MAX_CALL_ID_LEN && forall k | 0 <= k < |s| :: IsCallIdByte(s[k])
  }

  /** `normalize_call_id`: the trimmed id, when it is valid. */
  function NormalizeCallId(raw: bytes): (r: Option<bytes>)
    ensures r.Some? <==> ValidCallId(Trim(raw))
    ensures r.Some? ==> r.value == Trim(raw) && ValidCallId(r.value)
  {
    var trimmed := Trim(raw);
    if |trimmed| == 0 || |trimmed| > MAX_CALL_ID_LEN then None
    else if exists k | 0 <= k < |trimmed| :: !IsCallIdByte(trimmed[k]) then None
    else Some(trimmed)
  }

  /** Text that neither starts nor ends with whitespace is its own trim. */
  lemma TrimUntouched(s: bytes)
    requires |s| > 0 && !IsTrimWs(s[0]) && !IsTrimWs(s[|s| - 1])
    ensures Trim(s) == s
  {
    assert LeadingWs(s) == 0;
    assert TrimStart(s) == s;
  }

  /** A valid id is accepted unchanged. */
  lemma NormalizeValid(id: bytes)
    requires ValidCallId(id)
    ensures NormalizeCallId(id) == Some(id)
  {
    TrimUntouched(id);
  }

  /** Normalising is idempotent. */
  lemma NormalizeIdempotent(raw: bytes)
    requires NormalizeCallId(raw).Some?
    ensures NormalizeCallId(NormalizeCallId(raw).value) == NormalizeCallId(raw)
  {
    NormalizeValid(NormalizeCallId(raw).value);
  }

  /** `extract_first_call_id`: a block that starts, after whitespace, with
      `<id>` or `<tool_call_id>` names its call id up to the matching
      closer, normalised. */
  function ExtractFirstCallId(block: bytes): (r: Option<bytes>)
    ensures r.Some? ==> ValidCallId(r.value)
  {
    var trimmed := TrimStart(block);
    if StartsWith(trimmed, ID_OPEN) then
      var rest := trimmed[|ID_OPEN|..];
      match Find(rest, ID_CLOSE)
      case None => None
      case Some(end) => NormalizeCallId(rest[..end])
    else if StartsWith(trimmed, TOOL_CALL_ID_OPEN) then
      var rest := trimmed[|TOOL_CALL_ID_OPEN|..];
      match Find(rest, TOOL_CALL_ID_CLOSE)
      case None => None
      case Some(end) => NormalizeCallId(rest[..end])
    else None
  }

  /** Text without the first byte of `p` holds no `p`. */
  lemma NoFirstByte(s: bytes, p: bytes)
    requires |p| > 0 && forall k | 0 <= k < |s| :: s[k] != p[0]
    ensures !Contains(s, p)
  {
    forall k: nat ensures !MatchAt(s, p, k) {
      if k + |p| <= |s| {
        assert s[k..k + |p|][0] == s[k];
      }
    }
  }

  /** `<id>` + a valid id + `</id>` gives back the id, whatever follows. */
  lemma CallIdRoundTrip(id: bytes, rest: bytes)
    requires ValidCallId(id)
    ensures ExtractFirstCallId(ID_OPEN + id + ID_CLOSE + rest) == Some(id)
  {
    var block := ID_OPEN + id + ID_CLOSE + rest;
    assert LeadingWs(block) == 0 by {
      assert block[0] == '<';
    }
    assert StartsWith(block, ID_OPEN) by {
      assert block[..|ID_OPEN|] == ID_OPEN;
    }
    var tail := block[|ID_OPEN|..];
    assert tail == id + ID_CLOSE + rest;
    NoFirstByte(id, ID_CLOSE);
    FirstOpener(id, rest, ID_CLOSE);
    assert tail[..|id|] == id;
    NormalizeValid(id);
  }

  // ---------------------------------------------------------------------
  // The <function_calls> block

  const FUNCTION_CALLS_OPEN: bytes := "<function_calls>"
  const FUNCTION_CALLS_CLOSE: bytes := "</function_calls>"

  /** `p`'s first byte occurs nowhere else in it, so no two matches of `p`
      overlap and no match can start inside a text that lacks `p` and end
      in a `p` that follows it. */
  predicate FirstByteUnique(p: bytes) {
    |p| > 0 && forall k | 0 < k < |p| :: p[k] != p[0]
  }

  /** A match of `p` found from `from` on, when the text there is `m + p + b`
      and `m` holds no `p`. */
  lemma FindFromAt(t: bytes, p: bytes, from: nat, m: bytes, b: bytes)
    requires FirstByteUnique(p) && from <= |t| && t[from..] == m + p + b && !Contains(m, p)
    ensures FindFrom(t, p, from) == Some(from + |m|)
  {
    FindFromSpec(t, p, from);
    var s := t[from..];
    assert MatchAt(t, p, from + |m|) by {
      assert t[from + |m|..from + |m| + |p|] == s[|m|..|m| + |p|];
    }
    forall k | from <= k < from + |m| ensures !MatchAt(t, p, k) {
      NoMatchBefore(t, p, from, m, b, k);
    }
  }

  lemma NoMatchBefore(t: bytes, p: bytes, from: nat, m: bytes, b: bytes, k: nat)
    requires FirstByteUnique(p) && from <= |t| && t[from..] == m + p + b && !Contains(m, p)
    requires from <= k < from + |m|
    ensures !MatchAt(t, p, k)
  {
    var s := t[from..];
    assert s == m + (p + b);
    NotInPrefix(m, p + b, k - from, p);
    if k + |p| <= |t| {
      assert t[k..k + |p|] == s[k - from..k - from + |p|];
    }
  }

  lemma SliceThree(t: bytes, i: nat, j: nat, k: nat, l: nat)
    requires i <= j <= k <= l <= |t|
    ensures t[i..l] == t[i..j] + t[j..k] + t[k..l]
  {
  }

  /** `find_function_calls_block`: the first `<function_calls>` and the
      first closer after it; the whole block and its content. */
  function FindFunctionCallsBlock(text: bytes): (r: Option<(bytes, bytes)>)
    ensures r.Some? ==> r.value.0 == FUNCTION_CALLS_OPEN + r.value.1 + FUNCTION_CALLS_CLOSE
    ensures r.Some? ==> Contains(text, FUNCTION_CALLS_OPEN)
  {
    match Find(text, FUNCTION_CALLS_OPEN)
    case None => None
    case Some(o) =>
      var contentStart := o + |FUNCTION_CALLS_OPEN|;
      match FindFrom(text, FUNCTION_CALLS_CLOSE, contentStart)
      case None => None
      case Some(contentEnd) =>
        FindFromFound(text, FUNCTION_CALLS_CLOSE, contentStart);
        var closeEnd := contentEnd + |FUNCTION_CALLS_CLOSE|;
        SliceThree(text, o, contentStart, contentEnd, closeEnd);
        Some((text[o..closeEnd], text[contentStart..contentEnd]))
  }

  /** The block after text without an opener is found, with its content,
      whatever follows it. */
  lemma FunctionCallsBlockFound(a: bytes, content: bytes, b: bytes)
    requires !Contains(a, FUNCTION_CALLS_OPEN) && !Contains(content, FUNCTION_CALLS_CLOSE)
    ensures FindFunctionCallsBlock(a + FUNCTION_CALLS_OPEN + content + FUNCTION_CALLS_CLOSE + b)
      == Some((FUNCTION_CALLS_OPEN + content + FUNCTION_CALLS_CLOSE, content))
  {
    var t := a + FUNCTION_CALLS_OPEN + content + FUNCTION_CALLS_CLOSE + b;
    var c := |a| + |FUNCTION_CALLS_OPEN| + |content|;
    OpenerAt(t, a, content, b);
    CloserAfter(t, a, content, b);
    BlockSlices(t, a, content, b, |a|, c);
    BlockAtPositions(t, |a|, c, FUNCTION_CALLS_OPEN + content + FUNCTION_CALLS_CLOSE, content);
  }

  lemma OpenerAt(t: bytes, a: bytes, content: bytes, b: bytes)
    requires t == a + FUNCTION_CALLS_OPEN + content + FUNCTION_CALLS_CLOSE + b
    requires !Contains(a, FUNCTION_CALLS_OPEN)
    ensures Find(t, FUNCTION_CALLS_OPEN) == Some(|a|)
  {
    assert t == a + FUNCTION_CALLS_OPEN + (content + FUNCTION_CALLS_CLOSE + b);
    FirstOpener(a, content + FUNCTION_CALLS_CLOSE + b, FUNCTION_CALLS_OPEN);
  }

  lemma CloserAfter(t: bytes, a: bytes, content: bytes, b: bytes)
    requires t == a + FUNCTION_CALLS_OPEN + content + FUNCTION_CALLS_CLOSE + b
    requires !Contains(content, FUNCTION_CALLS_CLOSE)
    ensures FindFrom(t, FUNCTION_CALLS_CLOSE, |a| + |FUNCTION_CALLS_OPEN|) == Some(|a| + |FUNCTION_CALLS_OPEN| + |content|)
  {
    var start := |a| + |FUNCTION_CALLS_OPEN|;
    assert t[start..] == content + FUNCTION_CALLS_CLOSE + b;
    FindFromAt(t, FUNCTION_CALLS_CLOSE, start, content, b);
  }

  /** The block and content `FindFunctionCallsBlock` cuts out once the
      opener and the closer are found. */
  lemma BlockAtPositions(t: bytes, o: nat, c: nat, blk: bytes, inner: bytes)
    requires Find(t, FUNCTION_CALLS_OPEN) == Some(o)
    requires FindFrom(t, FUNCTION_CALLS_CLOSE, o + |FUNCTION_CALLS_OPEN|) == Some(c)
    requires o + |FUNCTION_CALLS_OPEN| <= c && c + |FUNCTION_CALLS_CLOSE| <= |t|
    requires blk == t[o..c + |FUNCTION_CALLS_CLOSE|] && inner == t[o + |FUNCTION_CALLS_OPEN|..c]
    ensures FindFunctionCallsBlock(t) == Some((blk, inner))
  {
  }

  lemma BlockSlices(t: bytes, a: bytes, content: bytes, b: bytes, o: nat, c: nat)
    requires t == a + FUNCTION_CALLS_OPEN + content + FUNCTION_CALLS_CLOSE + b
    requires o == |a| && c == |a| + |FUNCTION_CALLS_OPEN| + |content|
    ensures o + |FUNCTION_CALLS_OPEN| <= c && c + |FUNCTION_CALLS_CLOSE| <= |t|
    ensures t[o..c + |FUNCTION_CALLS_CLOSE|] == FUNCTION_CALLS_OPEN + content + FUNCTION_CALLS_CLOSE
    ensures t[o + |FUNCTION_CALLS_OPEN|..c] == content
  {
  }

  /** Without a closer after the opener there is no block. */
  lemma FunctionCallsBlockUnclosed(a: bytes, b: bytes)
    requires !Contains(a, FUNCTION_CALLS_OPEN) && !Contains(b, FUNCTION_CALLS_CLOSE)
    ensures FindFunctionCallsBlock(a + FUNCTION_CALLS_OPEN + b).None?
  {
    var t := a + FUNCTION_CALLS_OPEN + b;
    FirstOpener(a, b, FUNCTION_CALLS_OPEN);
    assert t[|a| + |FUNCTION_CALLS_OPEN|..] == b;
    NoMatchInSuffix(t, b, |a| + |FUNCTION_CALLS_OPEN|, FUNCTION_CALLS_CLOSE);
  }

  // ---------------------------------------------------------------------
  // Attributes

  /** A byte that can be part of an attribute name. */
  predicate IsAttrChar(b: byte) { IsAsciiAlnum(b) || b == '_' || b == '-' || b == ':' }

  predicate IsQuote(b: byte) { b == '"' || b == '\'' }

  /** The first position at or after `i` that is not ASCII whitespace. */
  function SkipWs(s: bytes, i: nat): (r: nat)
    requires i <= |s|
    ensures i <= r <= |s| && (r == |s| || !IsAsciiWs(s[r]))
    ensures forall k | i <= k < r :: IsAsciiWs(s[k])
    decreases |s| - i
  {
    if i < |s| && IsAsciiWs(s[i]) then SkipWs(s, i + 1) else i
  }

  /** What an occurrence of the attribute name yields: nothing, so the
      search goes on; the end of the search; or a quoted value. */
  datatype AttrMatch = Skip | Stop | Value(start: nat, end: nat)

  /** The occurrence of `attr` at `n`: it must stand alone as a name and be
      followed by `=` and a quoted value, with whitespace allowed around the
      `=`. Running out of text before the quote, or a quote that is never
      closed, ends the search. */
  function AttrAt(s: bytes, attr: bytes, n: nat): (r: AttrMatch)
    requires MatchAt(s, attr, n)
    ensures r.Value? ==> n + |attr| < r.start <= r.end < |s|
    ensures r.Value? ==> (n == 0 || !IsAttrChar(s[n - 1])) && !IsAttrChar(s[n + |attr|])
    ensures r.Value? ==> IsQuote(s[r.start - 1]) && s[r.end] == s[r.start - 1]
    ensures r.Value? ==> forall k | r.start <= k < r.end :: s[k] != s[r.start - 1]
  {
    var nameEnd := n + |attr|;
    if n > 0 && IsAttrChar(s[n - 1]) then Skip
    else if nameEnd < |s| && IsAttrChar(s[nameEnd]) then Skip
    else
      var eq := SkipWs(s, nameEnd);
      if eq >= |s| || s[eq] != '=' then Skip
      else QuotedAfter(s, eq)
  }

  /** The quoted value after the `=` at `eq`. */
  function QuotedAfter(s: bytes, eq: nat): (r: AttrMatch)
    requires eq < |s|
    ensures r.Value? ==> eq < r.start - 1 && r.start <= r.end < |s|
    ensures r.Value? ==> IsQuote(s[r.start - 1]) && s[r.end] == s[r.start - 1]
    ensures r.Value? ==> forall k | r.start <= k < r.end :: s[k] != s[r.start - 1]
  {
    var q := SkipWs(s, eq + 1);
    if q >= |s| then Stop
    else if !IsQuote(s[q]) then Skip
    else
      match FindByte(s, s[q], q + 1)
      case None => Stop
      case Some(e) => Value(q + 1, e)
  }

  /** The value of the first standalone occurrence of `attr` from `from` on
      that has one, trimmed. */
  function AttrFrom(s: bytes, attr: bytes, from: nat): (r: Option<bytes>)
    requires |attr| > 0
    decreases |s| - from
  {
    match FindFrom(s, attr, from)
    case None => None
    case Some(n) =>
      FindFromFound(s, attr, from);
      match AttrAt(s, attr, n)
      case Skip => AttrFrom(s, attr, n + 1)
      case Stop => None
      case Value(a, e) => Some(Trim(s[a..e]))
  }

  /** A value found is the trimmed value of some standalone occurrence of
      the name at or after `from`. */
  lemma {:induction false} AttrFromFound(s: bytes, attr: bytes, from: nat)
    requires |attr| > 0
    ensures var r := AttrFrom(s, attr, from);
      r.Some? ==> exists n | from <= n :: (MatchAt(s, attr, n) && AttrAt(s, attr, n).Value?
        && r.value == Trim(s[AttrAt(s, attr, n).start..AttrAt(s, attr, n).end]))
    decreases |s| - from
  {
    FindFromFound(s, attr, from);
    match FindFrom(s, attr, from)
    case None =>
    case Some(n) =>
      match AttrAt(s, attr, n)
      case Skip => AttrFromFound(s, attr, n + 1);
      case Stop =>
      case Value(a, e) =>
  }

  /** The whitespace loop of `extract_attr_ascii`: the first position at
      or after `i` that is not ASCII whitespace. */
  method SkipWhitespace(tag: bytes, i: nat) returns (idx: nat)
    requires i <= |tag|
    ensures idx == SkipWs(tag, i)
  {
    idx := i;
    while idx < |tag| && IsAsciiWs(tag[idx])
      invariant i <= idx <= |tag|
      invariant SkipWs(tag, i) == SkipWs(tag, idx)
      decreases |tag| - idx
    {
      idx := idx + 1;
    }
  }

  /** The inner part of one round of `extract_attr_ascii`, at the
      occurrence of `attr` at `n`. */
  method AttrRound(tag: bytes, attr: bytes, n: nat) returns (r: AttrMatch)
    requires MatchAt(tag, attr, n)
    ensures r == AttrAt(tag, attr, n)
  {
    var nameEnd := n + |attr|;
    if n > 0 && IsAttrChar(tag[n - 1]) {
      return Skip;
    }
    if nameEnd < |tag| && IsAttrChar(tag[nameEnd]) {
      return Skip;
    }
    var eq := SkipWhitespace(tag, nameEnd);
    if eq >= |tag| || tag[eq] != '=' {
      return Skip;
    }
    r := QuotedRound(tag, eq);
  }

  /** The rest of the round, after the `=` at `eq`. */
  method QuotedRound(tag: bytes, eq: nat) returns (r: AttrMatch)
    requires eq < |tag|
    ensures r == QuotedAfter(tag, eq)
  {
    var idx := SkipWhitespace(tag, eq + 1);
    if idx >= |tag| {
      return Stop;
    }
    var quote := tag[idx];
    if !IsQuote(quote) {
      return Skip;
    }
    var valueEnd := FindByte(tag, quote, idx + 1);
    if valueEnd.None? {
      return Stop;
    }
    return Value(idx + 1, valueEnd.value);
  }

  /** `extract_attr_ascii` (and so `extract_name_attr_ascii` and
      `extract_id_attr_ascii`): search the tag for the attribute name,
      moving one byte past each occurrence that does not qualify. */
  method ExtractAttrAscii(tag: bytes, attr: bytes) returns (r: Option<bytes>)
    requires |attr| > 0
    ensures r == AttrFrom(tag, attr, 0)
  {
    var searchFrom: nat := 0;
    while true
      invariant searchFrom <= |tag|
      invariant AttrFrom(tag, attr, searchFrom) == AttrFrom(tag, attr, 0)
      decreases |tag| - searchFrom
    {
      var done, value, next := AttrSearchRound(tag, attr, searchFrom);
      if done {
        return value;
      }
      searchFrom := next;
    }
  }

  /** One round of the search of `extract_attr_ascii`: either the answer,
      or where the search goes on. */
  method AttrSearchRound(tag: bytes, attr: bytes, searchFrom: nat) returns (done: bool, r: Option<bytes>, next: nat)
    requires |attr| > 0 && searchFrom <= |tag|
    ensures done ==> r == AttrFrom(tag, attr, searchFrom)
    ensures !done ==> searchFrom < next <= |tag| && AttrFrom(tag, attr, next) == AttrFrom(tag, attr, searchFrom)
  {
    var found := FindFrom(tag, attr, searchFrom);
    if found.None? {
      return true, None, searchFrom;
    }
    var nameStart := found.value;
    FindFromFound(tag, attr, searchFrom);
    var m := AttrRound(tag, attr, nameStart);
    if m.Stop? {
      return true, None, searchFrom;
    } else if m.Value? {
      return true, Some(Trim(tag[m.start..m.end])), searchFrom;
    }
    return false, None, nameStart + 1;
  }

  /** The first position at or after `from` holding `b`, when `b` is not
      in between. */
  lemma FindByteAt(s: bytes, b: byte, from: nat, i: nat)
    requires from <= i < |s| && s[i] == b && forall k | from <= k < i :: s[k] != b
    ensures FindByte(s, b, from) == Some(i)
  {
  }

  /** A standalone name directly followed by `=` and a quoted value. */
  lemma AttrAtValue(s: bytes, attr: bytes, n: nat, e: nat)
    requires MatchAt(s, attr, n) && (n == 0 || !IsAttrChar(s[n - 1]))
    requires n + |attr| < |s| && s[n + |attr|] == '='
    requires QuotedAfter(s, n + |attr|) == Value(n + |attr| + 2, e)
    ensures AttrAt(s, attr, n) == Value(n + |attr| + 2, e)
  {
    assert SkipWs(s, n + |attr|) == n + |attr|;
  }

  /** The first occurrence of `attr`, at `n`, stands alone and is
      followed by `=` and a quoted value `v` without that quote: the value is
      found, trimmed. */
  lemma AttrValueFound(s: bytes, attr: bytes, n: nat, eq: nat, q: byte, v: bytes)
    requires FirstByteUnique(attr) && MatchAt(s, attr, n) && !Contains(s[..n], attr)
    requires (n == 0 || !IsAttrChar(s[n - 1])) && eq == n + |attr|
    requires eq + 2 + |v| < |s| && s[eq] == '=' && s[eq + 1] == q && s[eq + 2 + |v|] == q
    requires s[eq + 2..eq + 2 + |v|] == v
    requires IsQuote(q) && forall k | eq + 2 <= k < eq + 2 + |v| :: s[k] != q
    ensures AttrFrom(s, attr, 0) == Some(Trim(v))
  {
    QuotedValueAt(s, eq, q, |v|);
    FirstMatchAt(s, attr, n);
    AttrFromAfterEq(s, attr, n, eq + 2 + |v|, v);
  }

  /** A quote right after the `=` at `eq`, `len` bytes without that quote,
      and the same quote again: the quoted value. */
  lemma QuotedValueAt(s: bytes, eq: nat, q: byte, len: nat)
    requires eq + 2 + len < |s| && s[eq + 1] == q && s[eq + 2 + len] == q
    requires IsQuote(q) && forall k | eq + 2 <= k < eq + 2 + len :: s[k] != q
    ensures QuotedAfter(s, eq) == Value(eq + 2, eq + 2 + len)
  {
    FindByteAt(s, q, eq + 2, eq + 2 + len);
    QuotedFound(s, eq, eq + 2 + len);
  }

  /** A match with none before it is the first one. */
  lemma FirstMatchAt(s: bytes, p: bytes, n: nat)
    requires FirstByteUnique(p) && MatchAt(s, p, n) && !Contains(s[..n], p)
    ensures FindFrom(s, p, 0) == Some(n)
  {
    assert s == s[..n] + p + s[n + |p|..];
    FirstOpener(s[..n], s[n + |p|..], p);
  }

  /** A quote right after the `=` at `eq`, closed at `e`. */
  lemma QuotedFound(s: bytes, eq: nat, e: nat)
    requires eq + 1 < |s| && IsQuote(s[eq + 1]) && FindByte(s, s[eq + 1], eq + 2) == Some(e)
    ensures QuotedAfter(s, eq) == Value(eq + 2, e)
  {
    assert SkipWs(s, eq + 1) == eq + 1;
  }

  /** The first occurrence is directly followed by `=` and a quoted value:
      it is the result. */
  lemma AttrFromAfterEq(s: bytes, attr: bytes, n: nat, e: nat, v: bytes)
    requires |attr| > 0 && FindFrom(s, attr, 0) == Some(n)
    requires MatchAt(s, attr, n) && (n == 0 || !IsAttrChar(s[n - 1]))
    requires n + |attr| < |s| && s[n + |attr|] == '='
    requires QuotedAfter(s, n + |attr|) == Value(n + |attr| + 2, e) && s[n + |attr| + 2..e] == v
    ensures AttrFrom(s, attr, 0) == Some(Trim(v))
  {
    AttrAtValue(s, attr, n, e);
    AttrFromFirst(s, attr, n, n + |attr| + 2, e, v);
  }

  /** The first occurrence has a value: it is the result. */
  lemma AttrFromFirst(s: bytes, attr: bytes, n: nat, a: nat, e: nat, v: bytes)
    requires |attr| > 0 && FindFrom(s, attr, 0) == Some(n)
    requires MatchAt(s, attr, n) && AttrAt(s, attr, n) == Value(a, e) && s[a..e] == v
    ensures AttrFrom(s, attr, 0) == Some(Trim(v))
  {
  }

  // ---------------------------------------------------------------------
  // The trigger signal

  /** The last match of `p` that ends at or before `end` (`memmem::rfind`
      on `s[..end]`). What it finds is stated by `RFindSpec`. */
  function RFind(s: bytes, p: bytes, end: nat): (r: Option<nat>)
    requires end <= |s|
    ensures r.Some? ==> r.value + |p| <= end
    decreases end
  {
    if end < |p| then None
    else if s[end - |p|..end] == p then Some(end - |p|)
    else if end == 0 then None
    else RFind(s, p, end - 1)
  }

  /** `RFind` finds a match, the last one before `end`, and finds nothing
      only when there is none. */
  lemma {:induction false} RFindSpec(s: bytes, p: bytes, end: nat)
    requires end <= |s|
    ensures var r := RFind(s, p, end);
      && (r.Some? ==> MatchAt(s, p, r.value) && forall k | r.value < k && k + |p| <= end :: !MatchAt(s, p, k))
      && (r.None? ==> forall k: nat | k + |p| <= end :: !MatchAt(s, p, k))
    decreases end
  {
    if end >= |p| && s[end - |p|..end] != p && end > 0 {
      assert !MatchAt(s, p, end - |p|);
      RFindSpec(s, p, end - 1);
    }
  }

  /** The match at `i` with none after it before `end` is the one found. */
  lemma RFindLast(s: bytes, p: bytes, end: nat, i: nat)
    requires end <= |s| && MatchAt(s, p, i) && i + |p| <= end
    requires forall k | i < k && k + |p| <= end :: !MatchAt(s, p, k)
    ensures RFind(s, p, end) == Some(i)
  {
    RFindSpec(s, p, end);
  }

  /** The step 2 search of `parse_function_calls`: from the last trigger
      before `end` backwards, the first whose suffix holds a
      `<function_calls>` block. The next search ends where the trigger
      just tried starts. */
  function BlockSearch(t: bytes, trig: bytes, end: nat): (r: Option<nat>)
    requires |trig| > 0 && end <= |t|
    ensures r.Some? ==> r.value + |trig| <= end && FindFunctionCallsBlock(t[r.value..]).Some?
    decreases end
  {
    match RFind(t, trig, end)
    case None => None
    case Some(pos) =>
      if FindFunctionCallsBlock(t[pos..]).Some? then Some(pos)
      else if pos == 0 then None
      else BlockSearch(t, trig, pos)
  }

  /** What `BlockSearch` finds is a trigger. */
  lemma {:induction false} BlockSearchFindsTrigger(t: bytes, trig: bytes, end: nat)
    requires |trig| > 0 && end <= |t|
    ensures BlockSearch(t, trig, end).Some? ==> MatchAt(t, trig, BlockSearch(t, trig, end).value)
    decreases end
  {
    RFindSpec(t, trig, end);
    match RFind(t, trig, end)
    case None =>
    case Some(pos) =>
      if FindFunctionCallsBlock(t[pos..]).None? && pos > 0 {
        BlockSearchFindsTrigger(t, trig, pos);
      }
  }

  /** The loop of step 2 of `parse_function_calls`: the position of the
      trigger chosen, and of the last trigger, whose suffix is what the
      permissive tier parses when no trigger is followed by a block. */
  method FindTrigger(cleaned: bytes, trig: bytes) returns (found: Option<nat>, tail: Option<nat>)
    requires |trig| > 0
    ensures found == BlockSearch(cleaned, trig, |cleaned|)
    ensures tail == RFind(cleaned, trig, |cleaned|)
  {
    var searchEnd: nat := |cleaned|;
    found, tail := None, None;
    while true
      invariant searchEnd <= |cleaned| && found.None?
      invariant tail.None? ==> searchEnd == |cleaned|
      invariant tail.Some? ==> tail == RFind(cleaned, trig, |cleaned|)
      invariant BlockSearch(cleaned, trig, searchEnd) == BlockSearch(cleaned, trig, |cleaned|)
      decreases searchEnd
    {
      var p := RFind(cleaned, trig, searchEnd);
      if p.None? {
        break;
      }
      var pos := p.value;
      if tail.None? {
        tail := Some(pos);
      }
      var block := FindFunctionCallsBlock(cleaned[pos..]);
      if block.Some? {
        found := Some(pos);
        break;
      }
      if pos == 0 {
        break;
      }
      searchEnd := pos;
    }
  }

  /** No match starts after `|a|` in `a + p + b` when `b` holds none and
      `p`'s first byte occurs only at its start. */
  lemma NoMatchAfter(a: bytes, p: bytes, b: bytes, k: nat)
    requires FirstByteUnique(p) && !Contains(b, p) && |a| < k
    ensures !MatchAt(a + p + b, p, k)
  {
    var t := a + p + b;
    if k + |p| <= |t| {
      if k < |a| + |p| {
        assert t[k] == p[k - |a|];
        assert t[k..k + |p|][0] != p[0];
      } else {
        assert t[k..k + |p|] == b[k - |a| - |p|..k - |a|];
        ContainsIff(b, p);
        assert !MatchAt(b, p, k - |a| - |p|);
      }
    }
  }

  /** The last trigger is used when a block follows it, whatever comes
      before it, triggers and blocks included. */
  lemma LastTriggerUsed(a: bytes, trig: bytes, b: bytes)
    requires FirstByteUnique(trig) && !Contains(b, trig)
    requires FindFunctionCallsBlock(trig + b).Some?
    ensures RFind(a + trig + b, trig, |a + trig + b|) == Some(|a|)
    ensures BlockSearch(a + trig + b, trig, |a + trig + b|) == Some(|a|)
  {
    var t := a + trig + b;
    assert MatchAt(t, trig, |a|) by {
      assert t[|a|..|a| + |trig|] == trig;
    }
    forall k | |a| < k && k + |trig| <= |t| ensures !MatchAt(t, trig, k) {
      NoMatchAfter(a, trig, b, k);
    }
    RFindLast(t, trig, |t|, |a|);
    assert t[|a|..] == trig + b;
  }

  // ---------------------------------------------------------------------
  // Parsing and validation

  /** One tool call decoded from the model's output. */
  datatype ParsedToolCall = ParsedToolCall(id: Option<bytes>, name: bytes, arguments: Json, argumentsJson: Option<bytes>)

  /** Why `parse_function_calls` gave up; each is an `FcParse` error of the
      source, told apart by its message. */
  datatype ParseError =
    | EmptyInput
    | NoTrigger
    | Malformed(reason: bytes)
    | NoCalls
    | EmptyName
    | NotAnObject(name: bytes, kind: bytes)

  /** One XML parsing tier (quick-xml fast path, strict, regex, permissive):
      the calls it reads from its input, or its error. */
  type Tier = bytes -> Result<seq<ParsedToolCall>, ParseError>

  datatype Tiers = Tiers(fast: Tier, strict: Tier, regex: Tier, permissive: Tier)

  /** `kind_label`: the name of a JSON value's kind in error messages. */
  function KindLabel(v: Json): (r: bytes)
    ensures r == "object" <==> v.Object?
    ensures r in {"null", "boolean", "number", "string", "array", "object"}
  {
    match v
    case Null => "null"
    case Bool(_) => "boolean"
    case Number(_) => "number"
    case Str(_) => "string"
    case Array(_) => "array"
    case Object(_) => "object"
  }

  /** A call that passes step 5: a name and an object of arguments. */
  predicate WellFormed(c: ParsedToolCall) { c.name != [] && c.arguments.Object? }

  /** The error of the first call that fails step 5, if any. */
  function FirstInvalid(calls: seq<ParsedToolCall>): (r: Option<ParseError>)
    ensures r.None? <==> forall i | 0 <= i < |calls| :: WellFormed(calls[i])
    ensures r.Some? ==> r.value == EmptyName || (r.value.NotAnObject? && r.value.name != [] && r.value.kind != "object")
  {
    if |calls| == 0 then None
    else if calls[0].name == [] then Some(EmptyName)
    else if !calls[0].arguments.Object? then Some(NotAnObject(calls[0].name, KindLabel(calls[0].arguments)))
    else FirstInvalid(calls[1..])
  }

  /** Step 5 of `parse_function_calls`. */
  method ValidateCalls(calls: seq<ParsedToolCall>) returns (err: Option<ParseError>)
    ensures err == FirstInvalid(calls)
  {
    var i := 0;
    assert calls[i..] == calls;
    while i < |calls|
      invariant i <= |calls|
      invariant FirstInvalid(calls[i..]) == FirstInvalid(calls)
    {
      assert calls[i..][1..] == calls[i + 1..];
      if calls[i].name == [] {
        return Some(EmptyName);
      }
      if !calls[i].arguments.Object? {
        return Some(NotAnObject(calls[i].name, KindLabel(calls[i].arguments)));
      }
      i := i + 1;
    }
    return None;
  }

  /** Steps 3 and 4: the tiers tried in turn on the block, the first
      success winning; without a block, the permissive tier on the text
      from the last trigger on. */
  function RunTiers(tiers: Tiers, block: Option<(bytes, bytes)>, tail: bytes): Result<seq<ParsedToolCall>, ParseError> {
    match block
    case None => tiers.permissive(tail)
    case Some((xml, content)) =>
      var fast := tiers.fast(content);
      if fast.Ok? then fast
      else
        var strict := tiers.strict(xml);
        if strict.Ok? then strict
        else
          var regex := tiers.regex(content);
          if regex.Ok? then regex else tiers.permissive(content)
  }

  /** What `parse_function_calls` returns. A success holds at least one
      call, and every call has a name and an object of arguments. */
  function ParseSpec(text: bytes, trig: bytes, tiers: Tiers): (r: Result<seq<ParsedToolCall>, ParseError>)
    ensures (text == [] || trig == []) ==> r == Err(EmptyInput)
    ensures r.Ok? ==> |r.value| > 0 && forall i | 0 <= i < |r.value| :: WellFormed(r.value[i])
  {
    if text == [] || trig == [] then Err(EmptyInput)
    else
      var cleaned := RemoveThink(text);
      match RFind(cleaned, trig, |cleaned|)
      case None => Err(NoTrigger)
      case Some(tail) =>
        var found := BlockSearch(cleaned, trig, |cleaned|);
        var block := if found.Some? then FindFunctionCallsBlock(cleaned[found.value..]) else None;
        match RunTiers(tiers, block, cleaned[tail..])
        case Err(e) => Err(e)
        case Ok(results) =>
          if results == [] then Err(NoCalls)
          else match FirstInvalid(results)
            case Some(e) => Err(e)
            case None => Ok(results)
  }

  /** `parse_function_calls`: strip reasoning blocks, find the trigger,
      run the tiers, validate. */
  method ParseFunctionCalls(text: bytes, trig: bytes, tiers: Tiers) returns (r: Result<seq<ParsedToolCall>, ParseError>)
    ensures r == ParseSpec(text, trig, tiers)
  {
    if text == [] || trig == [] {
      return Err(EmptyInput);
    }
    var cleaned := RemoveThinkBlocks(text);
    var found, tail := FindTrigger(cleaned, trig);
    if tail.None? {
      return Err(NoTrigger);
    }
    var results;
    if found.Some? {
      var block := FindFunctionCallsBlock(cleaned[found.value..]);
      var xml, content := block.value.0, block.value.1;
      results := tiers.fast(content);
      if results.Err? {
        results := tiers.strict(xml);
      }
      if results.Err? {
        results := tiers.regex(content);
      }
      if results.Err? {
        results := tiers.permissive(content);
      }
    } else {
      results := tiers.permissive(cleaned[tail.value..]);
    }
    if results.Err? {
      return Err(results.error);
    }
    if results.value == [] {
      return Err(NoCalls);
    }
    var invalid := ValidateCalls(results.value);
    if invalid.Some? {
      return Err(invalid.value);
    }
    return Ok(results.value);
  }

  /** Without a trigger outside reasoning blocks the parse fails, whatever
      the tiers would have read. */
  lemma ParseNeedsTrigger(text: bytes, trig: bytes, tiers: Tiers)
    requires text != [] && trig != [] && !Contains(RemoveThink(text), trig)
    ensures ParseSpec(text, trig, tiers) == Err(NoTrigger)
  {
    var cleaned := RemoveThink(text);
    RFindSpec(cleaned, trig, |cleaned|);
    ContainsIff(cleaned, trig);
  }

  /** The block after the last trigger is what the fast tier reads, and
      what it reads is the answer when it is well formed. */
  lemma ParseUsesLastBlock(text: bytes, trig: bytes, tiers: Tiers, a: bytes, m: bytes, content: bytes, b2: bytes,
                           b: bytes, calls: seq<ParsedToolCall>)
    requires text != [] && FirstByteUnique(trig)
    requires b == m + FUNCTION_CALLS_OPEN + content + FUNCTION_CALLS_CLOSE + b2
    requires RemoveThink(text) == a + trig + b && !Contains(b, trig)
    requires !Contains(trig + m, FUNCTION_CALLS_OPEN) && !Contains(content, FUNCTION_CALLS_CLOSE)
    requires tiers.fast(content) == Ok(calls) && calls != []
    requires forall i | 0 <= i < |calls| :: WellFormed(calls[i])
    ensures ParseSpec(text, trig, tiers) == Ok(calls)
  {
    BlockAfterTrigger(trig, m, content, b2, b);
    TriggerChosen(RemoveThink(text), trig, a, b);
    BlockSeen(RemoveThink(text), trig, a, b, (FUNCTION_CALLS_OPEN + content + FUNCTION_CALLS_CLOSE, content));
    ParseAt(text, trig, tiers, |a|, content, calls);
  }

  /** In `a + trig + b`, the trigger at `|a|` is both the last one and the
      one chosen when a block follows it. */
  lemma TriggerChosen(cleaned: bytes, trig: bytes, a: bytes, b: bytes)
    requires FirstByteUnique(trig)
    requires cleaned == a + trig + b && !Contains(b, trig)
    requires FindFunctionCallsBlock(trig + b).Some?
    ensures RFind(cleaned, trig, |cleaned|) == Some(|a|)
    ensures BlockSearch(cleaned, trig, |cleaned|) == Some(|a|)
  {
    LastTriggerUsed(a, trig, b);
  }

  /** The block seen from the trigger at `|a|` of `a + trig + b`. */
  lemma BlockSeen(cleaned: bytes, trig: bytes, a: bytes, b: bytes, blk: (bytes, bytes))
    requires cleaned == a + trig + b
    requires FindFunctionCallsBlock(trig + b) == Some(blk)
    ensures FindFunctionCallsBlock(cleaned[|a|..]) == Some(blk)
  {
    SuffixAfter(cleaned, a, trig + b);
  }

  lemma SuffixAfter(t: bytes, a: bytes, x: bytes)
    requires t == a + x
    ensures t[|a|..] == x
  {
  }

  /** The block of `trig + b` when `b` holds one. */
  lemma BlockAfterTrigger(trig: bytes, m: bytes, content: bytes, b2: bytes, b: bytes)
    requires b == m + FUNCTION_CALLS_OPEN + content + FUNCTION_CALLS_CLOSE + b2
    requires !Contains(trig + m, FUNCTION_CALLS_OPEN) && !Contains(content, FUNCTION_CALLS_CLOSE)
    ensures FindFunctionCallsBlock(trig + b) == Some((FUNCTION_CALLS_OPEN + content + FUNCTION_CALLS_CLOSE, content))
  {
    assert trig + b == (trig + m) + FUNCTION_CALLS_OPEN + content + FUNCTION_CALLS_CLOSE + b2;
    FunctionCallsBlockFound(trig + m, content, b2);
  }

  /** The parse when the chosen trigger is at `pos` and the fast tier reads
      its block's content. */
  lemma ParseAt(text: bytes, trig: bytes, tiers: Tiers, pos: nat, content: bytes, calls: seq<ParsedToolCall>)
    requires text != [] && trig != []
    requires RFind(RemoveThink(text), trig, |RemoveThink(text)|) == Some(pos)
    requires BlockSearch(RemoveThink(text), trig, |RemoveThink(text)|) == Some(pos)
    requires FindFunctionCallsBlock(RemoveThink(text)[pos..]) == Some((FUNCTION_CALLS_OPEN + content + FUNCTION_CALLS_CLOSE, content))
    requires tiers.fast(content) == Ok(calls) && calls != []
    requires forall i | 0 <= i < |calls| :: WellFormed(calls[i])
    ensures ParseSpec(text, trig, tiers) == Ok(calls)
  {
  }

  // ---------------------------------------------------------------------
  // Argument values

  /** JSON decoding of a byte string (`serde_json::from_str`), `None` on a
      syntax error. */
  type JsonParse = bytes -> Option<Json>

  /** A byte a JSON value other than a string can start with. */
  predicate JsonStartByte(b: byte) {
    b == '{' || b == '[' || b == '-' || IsDigit(b) || b == 't' || b == 'f' || b == 'n'
  }

  /** `should_attempt_json_parse`. */
  predicate ShouldAttemptJsonParse(trimmed: bytes) { |trimmed| > 0 && JsonStartByte(trimmed[0]) }

  /** `coerce_json_value`: a parameter's text, parsed when it looks like a
      JSON value other than a string and parses, else the text itself. */
  function CoerceJsonValue(s: bytes, parse: JsonParse): (r: Json)
    ensures r == Str(s) || (ShouldAttemptJsonParse(Trim(s)) && parse(Trim(s)) == Some(r))
    ensures !ShouldAttemptJsonParse(Trim(s)) ==> r == Str(s)
  {
    var trimmed := Trim(s);
    if ShouldAttemptJsonParse(trimmed) then
      match parse(trimmed)
      case Some(v) => v
      case None => Str(s)
    else Str(s)
  }

  /** A quoted parameter stays the text it is, quotes and surrounding
      space included, even when it is a JSON string literal. */
  lemma QuotedParameterKept(s: bytes, parse: JsonParse)
    requires |Trim(s)| > 0 && Trim(s)[0] == '"'
    ensures CoerceJsonValue(s, parse) == Str(s)
  {
  }

  const EMPTY_OBJECT_TEXT: bytes := "{}"

  /** `empty_args_json_pair`. */
  function EmptyArgs(): (Json, Option<bytes>) { (Object([]), Some(EMPTY_OBJECT_TEXT)) }

  /** `parse_args_json_with_delta_or_empty`: the arguments as JSON with the
      text they were read from; CDATA unwrapped and entities decoded when
      the raw text does not parse; the empty object when nothing parses. */
  function ParseArgsOrEmpty(argsText: bytes, parse: JsonParse): (r: (Json, Option<bytes>))
    ensures r.1.Some?
    ensures r == EmptyArgs() || (r.1.value != [] && parse(r.1.value) == Some(r.0))
  {
    var trimmed := Trim(argsText);
    if trimmed == [] then EmptyArgs()
    else if parse(trimmed).Some? then (parse(trimmed).value, Some(trimmed))
    else
      var cdata := Contains(trimmed, CDATA_OPEN);
      var amp := HasByte(trimmed, '&');
      if !cdata && !amp then EmptyArgs()
      else
        var unwrapped := if cdata then UnwrapCdata(trimmed) else trimmed;
        var decoded := if amp then Decode(unwrapped) else unwrapped;
        var normalized := Trim(decoded);
        if normalized == [] then EmptyArgs()
        else match parse(normalized)
          case Some(v) => (v, Some(normalized))
          case None => EmptyArgs()
  }

  /** Arguments escaped as XML text are decoded before they are parsed. */
  lemma EscapedArgsDecoded(json: bytes, parse: JsonParse, v: Json)
    requires Trim(EscapeXml(json)) == EscapeXml(json) && Trim(json) == json && json != []
    requires parse(EscapeXml(json)).None? && parse(json) == Some(v)
    requires !Contains(EscapeXml(json), CDATA_OPEN) && HasByte(EscapeXml(json), '&')
    ensures ParseArgsOrEmpty(EscapeXml(json), parse) == (v, Some(json))
  {
    DecodeEscape(json);
  }
}
