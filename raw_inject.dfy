/** The raw function-calling injector for OpenAI Chat requests
    (`src/api/ingress/openai_chat/fc/raw_inject.rs`): when every message is
    simple, it rewrites the request body without a full JSON parse, dropping
    `tools` and `tool_choice`, replacing `model` and putting the
    function-calling system message first in `messages`. */
module RawInject {
  import opened Wrappers
  import opened Bytes
  import opened Errors
  import opened JsonScan
  import Util
  import P = Probe

  const SIMPLE_INJECT_BODY_CACHE_MAX_BODY_BYTES: nat := 16 * 1024
  const SIMPLE_INJECT_BODY_CACHE_MAX_MODEL_BYTES: nat := 256

  const ROLE: bytes := "role"
  const SYSTEM: bytes := "system"
  const TOOL: bytes := "tool"
  const TOOL_CALLS: bytes := "tool_calls"
  const INVALID_BODY: bytes := "Invalid OpenAI Chat request body"

  /** `simple_inject_body_cacheable`: bodies up to 16 KiB with models up to
      256 bytes are cached. */
  function SimpleInjectBodyCacheable(body: bytes, model: bytes): (r: bool)
    ensures r ==> |body| <= 16384 && |model| <= 256
    ensures |body| > 16384 || |model| > 256 ==> !r
  {
    |body| <= SIMPLE_INJECT_BODY_CACHE_MAX_BODY_BYTES && |model| <= SIMPLE_INJECT_BODY_CACHE_MAX_MODEL_BYTES
  }

  // ---------------------------------------------------------------------
  // String tokens

  /** `json_string_token_equals`: None for a token that is not a readable
      string, otherwise whether its string is `expected`. */
  function JsonStringTokenEquals(token: bytes, expected: bytes): (r: Option<bool>)
    ensures !P.IsQuoted(token) ==> r.None?
    ensures r.None? <==> P.ReadStringToken(token).None?
    ensures r == Some(true) <==> P.ReadStringToken(token) == Some(expected)
  {
    match P.ReadStringToken(token)
    case None => None
    case Some(text) => Some(text == expected)
  }

  /** The token the escaper writes for `text` compares equal exactly to
      `text`. */
  lemma QuotedTokenEquals(text: bytes, expected: bytes)
    ensures JsonStringTokenEquals(Util.JsonQuoted(text), expected) == Some(text == expected)
  {
    var q := Util.JsonQuoted(text);
    assert P.Inner(q) == Util.EscapeBody(text);
    Util.UnescapeEscape(text);
    if !HasByte(Util.EscapeBody(text), '\\') {
      P.UnescapeWithoutBackslash(Util.EscapeBody(text));
    }
  }

  // ---------------------------------------------------------------------
  // One message

  /** The flags the message check keeps. */
  datatype RoleScan = RoleScan(sawRole: bool, roleIsBlocked: bool, toolCallsHasItems: bool)

  const NOTHING_SEEN: RoleScan := RoleScan(false, false, false)

  /** What the check concludes after the closing brace. */
  predicate Verdict(st: RoleScan) {
    st.sawRole && !st.roleIsBlocked && !st.toolCallsHasItems
  }

  function ValueOf(t: bytes, m: Member): bytes
    requires InBounds(t, m)
  {
    t[m.valueStart..m.valueEnd]
  }

  /** One member of a message: a `role` must be a readable string and is
      blocked when it is `system` or `tool`; the last `tool_calls` decides
      whether the message carries calls. None is `return false`. */
  function ScanMessageMember(t: bytes, m: Member, st: RoleScan): Option<RoleScan>
    requires InBounds(t, m)
  {
    var key := KeyOf(t, m);
    var value := ValueOf(t, m);
    if key == ROLE then
      var isSystem := JsonStringTokenEquals(value, SYSTEM);
      var isTool := JsonStringTokenEquals(value, TOOL);
      if isSystem == Some(true) || isTool == Some(true) then Some(st.(sawRole := true, roleIsBlocked := true))
      else if isSystem == Some(false) && isTool == Some(false) then Some(st.(sawRole := true))
      else None
    else if key == TOOL_CALLS then Some(st.(toolCallsHasItems := P.RawToolsTokenHasItems(value)))
    else Some(st)
  }

  /** One member as the loop takes it: a key with a backslash stops the
      check before the member is looked at. */
  function MemberStep(t: bytes, m: Member, st: RoleScan): Option<RoleScan>
    requires InBounds(t, m)
  {
    if HasByte(KeyOf(t, m), '\\') then None else ScanMessageMember(t, m, st)
  }

  /** The members scanned in order. */
  function ScanMembers(t: bytes, ms: seq<Member>, st: RoleScan): Option<RoleScan>
    requires forall n | 0 <= n < |ms| :: InBounds(t, ms[n])
    decreases |ms|
  {
    if |ms| == 0 then Some(st)
    else match MemberStep(t, ms[0], st)
      case None => None
      case Some(st') => ScanMembers(t, ms[1..], st')
  }

  /** `message_token_is_simple_fc_inject`, specified on the member list. */
  predicate IsSimpleMessage(t: bytes) {
    match TopLevelMembers(t)
    case None => false
    case Some(ms) =>
      match ScanMembers(t, ms, NOTHING_SEEN)
      case None => false
      case Some(st) => Verdict(st)
  }

  /** What the message loop entered at `i` returns with flags `st`. */
  ghost predicate MessageLoopResult(t: bytes, i: nat, st: RoleScan)
    requires i <= |t|
  {
    match MembersFrom(t, i)
    case None => false
    case Some(rest) =>
      match ScanMembers(t, rest, st)
      case None => false
      case Some(st') => Verdict(st')
  }

  /** The verdict a loop turn leads to. */
  ghost predicate TurnVerdict(t: bytes, turn: MessageTurn)
  {
    match turn
    case Finished(simple) => simple
    case NextMember(at, flags) => at <= |t| && MessageLoopResult(t, at, flags)
  }

  /** The loop after a member followed by `,`: it goes on with the flags
      the member's scan gave, or fails when the scan failed. */
  lemma MessageLoopComma(t: bytes, i: nat, st: RoleScan, j: nat, m: Member, d: nat, next: Option<RoleScan>)
    requires i <= |t| && j == WsEnd(t, i) && j < |t| && t[j] == '"'
    requires MemberAt(t, j) == Some((m, d)) && d < |t| && t[d] == ',' && next == MemberStep(t, m, st)
    ensures MessageLoopResult(t, i, st) == (next.Some? && MessageLoopResult(t, d + 1, next.value))
  {
    MembersFromStep(t, i, j, m, d);
    match MembersFrom(t, d + 1)
    case None =>
    case Some(rest) =>
      var ms := [m] + rest;
      assert ms[0] == m && ms[1..] == rest;
      assert ScanMembers(t, ms, st) == if next.None? then None else ScanMembers(t, rest, next.value);
  }

  /** The loop after a member followed by `}`: the verdict on the flags
      the member's scan gave. */
  lemma MessageLoopClose(t: bytes, i: nat, st: RoleScan, j: nat, m: Member, d: nat, next: Option<RoleScan>)
    requires i <= |t| && j == WsEnd(t, i) && j < |t| && t[j] == '"'
    requires MemberAt(t, j) == Some((m, d)) && d < |t| && t[d] == '}' && next == MemberStep(t, m, st)
    ensures MessageLoopResult(t, i, st) == (next.Some? && Verdict(next.value))
  {
    MembersFromStep(t, i, j, m, d);
    assert [m][0] == m && [m][1..] == [];
    assert ScanMembers(t, [m], st) == if next.None? then None else ScanMembers(t, [], next.value);
  }

  /** Any other byte after a member fails the check. */
  lemma MessageLoopBadSeparator(t: bytes, i: nat, st: RoleScan, j: nat, m: Member, d: nat)
    requires i <= |t| && j == WsEnd(t, i) && j < |t| && t[j] == '"'
    requires MemberAt(t, j) == Some((m, d)) && d < |t| && t[d] != ',' && t[d] != '}'
    ensures !MessageLoopResult(t, i, st)
  {
    MembersFromStep(t, i, j, m, d);
  }

  lemma MessageLoopExit(t: bytes, i: nat, st: RoleScan, j: nat)
    requires i <= |t| && j == WsEnd(t, i)
    ensures j >= |t| || (t[j] != '}' && t[j] != '"') ==> !MessageLoopResult(t, i, st)
    ensures j < |t| && t[j] == '}' ==> MessageLoopResult(t, i, st) == Verdict(st)
    ensures j < |t| && t[j] == '"' && (MemberAt(t, j).None? || MemberAt(t, j).value.1 >= |t|) ==>
              !MessageLoopResult(t, i, st)
  {
    if j < |t| && t[j] == '}' {
      assert MembersFrom(t, i) == Some([]);
    }
  }

  /** The loop body for one member: the key test, then the `role` and
      `tool_calls` branches; None is `return false`. */
  method ScanMember(t: bytes, m: Member, st: RoleScan) returns (r: Option<RoleScan>)
    requires InBounds(t, m)
    ensures r == MemberStep(t, m, st)
  {
    var sawRole, roleIsBlocked, toolCallsHasItems := st.sawRole, st.roleIsBlocked, st.toolCallsHasItems;
    var key := t[m.keyStart..m.keyEnd];
    if HasByte(key, '\\') {
      return None;
    }
    var value := t[m.valueStart..m.valueEnd];
    if key == ROLE {
      sawRole := true;
      var isSystem := JsonStringTokenEquals(value, SYSTEM);
      var isTool := JsonStringTokenEquals(value, TOOL);
      if isSystem == Some(true) || isTool == Some(true) {
        roleIsBlocked := true;
      } else if isSystem == Some(false) && isTool == Some(false) {
      } else {
        return None;
      }
    } else if key == TOOL_CALLS {
      toolCallsHasItems := P.RawToolsTokenHasItems(value);
    }
    r := Some(RoleScan(sawRole, roleIsBlocked, toolCallsHasItems));
  }

  /** `message_token_is_simple_fc_inject`: one pass over the message's
      members with the three flags. */
  method MessageTokenIsSimpleFcInject(t: bytes) returns (r: bool)
    ensures r == IsSimpleMessage(t)
  {
    var i := SkipWs(t, 0);
    if i >= |t| || t[i] != '{' {
      return false;
    }
    i := i + 1;
    var st := NOTHING_SEEN;
    ghost var target := IsSimpleMessage(t);
    assert TopLevelMembers(t) == MembersFrom(t, i);
    while true
      invariant i <= |t|
      invariant MessageLoopResult(t, i, st) == target
      decreases |t| - i
    {
      var j := SkipWs(t, i);
      MessageLoopExit(t, i, st, j);
      if j >= |t| || (t[j] != '}' && t[j] != '"') {
        return false;
      }
      if t[j] == '}' {
        return Verdict(st);
      }
      var turn := ReadMessageMember(t, i, j, st);
      match turn {
        case Finished(simple) => return simple;
        case NextMember(at, flags) => i, st := at, flags;
      }
    }
  }

  /** What the message loop does after a member: finish with a verdict,
      or go on at the given index with the new flags. */
  datatype MessageTurn = Finished(simple: bool) | NextMember(at: nat, flags: RoleScan)

  /** The member whose key starts at `j`: it is read, scanned, and the
      separator after it decides. */
  method ReadMessageMember(t: bytes, i: nat, j: nat, st: RoleScan) returns (r: MessageTurn)
    requires i <= |t| && j == WsEnd(t, i) && j < |t| && t[j] == '"'
    ensures r.NextMember? ==> i < r.at <= |t|
    ensures TurnVerdict(t, r) == MessageLoopResult(t, i, st)
  {
    var member := ParseMember(t, j);
    MessageLoopExit(t, i, st, j);
    r := Finished(false);
    if member.Some? && member.value.1 < |t| {
      var m, d := member.value.0, member.value.1;
      var next := ScanMember(t, m, st);
      if t[d] == ',' {
        MessageLoopComma(t, i, st, j, m, d, next);
        if next.Some? {
          r := NextMember(d + 1, next.value);
        }
      } else if t[d] == '}' {
        MessageLoopClose(t, i, st, j, m, d, next);
        if next.Some? {
          r := Finished(Verdict(next.value));
        }
      } else {
        MessageLoopBadSeparator(t, i, st, j, m, d);
      }
    }
  }

  /** A `role` member whose string is `system` or `tool`. */
  predicate BlockedRole(t: bytes, m: Member)
    requires InBounds(t, m)
  {
    KeyOf(t, m) == ROLE && P.ReadStringToken(ValueOf(t, m)) in {Some(SYSTEM), Some(TOOL)}
  }

  /** A member the check accepts: no backslash in the key, and a `role`
      holds a readable string. */
  predicate Readable(t: bytes, m: Member)
    requires InBounds(t, m)
  {
    !HasByte(KeyOf(t, m), '\\') && (KeyOf(t, m) == ROLE ==> P.ReadStringToken(ValueOf(t, m)).Some?)
  }

  /** Whether the `tool_calls` token found (the last one) has items, or
      `otherwise` when there is none. */
  function ToolCallsVerdict(t: bytes, found: Option<(nat, nat)>, otherwise: bool): bool {
    match found
    case None => otherwise
    case Some(range) => P.RawToolsTokenHasItems(Slice(t, range).GetOr([]))
  }

  /** A search from `acc` ends on its own find, or on `acc` when it finds
      nothing. */
  lemma {:induction false} MatchFromAcc(t: bytes, ms: seq<Member>, field: bytes, acc: Option<(nat, nat)>)
    requires forall n | 0 <= n < |ms| :: InBounds(t, ms[n])
    ensures MatchFrom(t, ms, field, acc) ==
      if MatchFrom(t, ms, field, None).None? then acc else MatchFrom(t, ms, field, None)
    decreases |ms|
  {
    if |ms| > 0 {
      var hit := Some((ms[0].valueStart, ms[0].valueEnd));
      MatchFromAcc(t, ms[1..], field, acc);
      MatchFromAcc(t, ms[1..], field, hit);
    }
  }

  /** The scan goes through exactly when every member is readable. */
  lemma {:induction false} ScanMembersReadable(t: bytes, ms: seq<Member>, st: RoleScan)
    requires forall n | 0 <= n < |ms| :: InBounds(t, ms[n])
    ensures ScanMembers(t, ms, st).Some? <==> forall n | 0 <= n < |ms| :: Readable(t, ms[n])
    decreases |ms|
  {
    if |ms| > 0 {
      var m, rest := ms[0], ms[1..];
      assert forall n | 0 <= n < |rest| :: rest[n] == ms[n + 1];
      if Readable(t, m) {
        ScanMembersReadable(t, rest, MemberStep(t, m, st).value);
      }
    }
  }

  /** A role was seen when some member is `role`. */
  lemma {:induction false} ScanMembersRole(t: bytes, ms: seq<Member>, st: RoleScan)
    requires forall n | 0 <= n < |ms| :: InBounds(t, ms[n])
    requires ScanMembers(t, ms, st).Some?
    ensures ScanMembers(t, ms, st).value.sawRole <==>
              st.sawRole || exists n | 0 <= n < |ms| :: KeyOf(t, ms[n]) == ROLE
    decreases |ms|
  {
    if |ms| > 0 {
      var m, rest := ms[0], ms[1..];
      assert forall n | 0 <= n < |rest| :: rest[n] == ms[n + 1];
      ScanMembersRole(t, rest, MemberStep(t, m, st).value);
      assert (exists n | 0 <= n < |ms| :: KeyOf(t, ms[n]) == ROLE) <==>
             KeyOf(t, m) == ROLE || exists n | 0 <= n < |rest| :: KeyOf(t, rest[n]) == ROLE;
    }
  }

  /** The role is blocked when some role is `system` or `tool`. */
  lemma {:induction false} ScanMembersBlocked(t: bytes, ms: seq<Member>, st: RoleScan)
    requires forall n | 0 <= n < |ms| :: InBounds(t, ms[n])
    requires ScanMembers(t, ms, st).Some?
    ensures ScanMembers(t, ms, st).value.roleIsBlocked <==>
              st.roleIsBlocked || exists n | 0 <= n < |ms| :: BlockedRole(t, ms[n])
    decreases |ms|
  {
    if |ms| > 0 {
      var m, rest := ms[0], ms[1..];
      assert forall n | 0 <= n < |rest| :: rest[n] == ms[n + 1];
      ScanMembersBlocked(t, rest, MemberStep(t, m, st).value);
      assert (exists n | 0 <= n < |ms| :: BlockedRole(t, ms[n])) <==>
             BlockedRole(t, m) || exists n | 0 <= n < |rest| :: BlockedRole(t, rest[n]);
    }
  }

  /** The last `tool_calls` decides the calls flag. */
  lemma {:induction false} ScanMembersToolCalls(t: bytes, ms: seq<Member>, st: RoleScan)
    requires forall n | 0 <= n < |ms| :: InBounds(t, ms[n])
    requires ScanMembers(t, ms, st).Some?
    ensures ScanMembers(t, ms, st).value.toolCallsHasItems ==
              ToolCallsVerdict(t, MatchFrom(t, ms, TOOL_CALLS, None), st.toolCallsHasItems)
    decreases |ms|
  {
    if |ms| > 0 {
      var m, rest := ms[0], ms[1..];
      ScanMembersToolCalls(t, rest, MemberStep(t, m, st).value);
      MatchFromAcc(t, rest, TOOL_CALLS, Some((m.valueStart, m.valueEnd)));
      assert Slice(t, (m.valueStart, m.valueEnd)) == Some(ValueOf(t, m));
    }
  }

  /** A message is simple exactly when it is an object whose members are all
      readable, with a `role`, no role `system` or `tool`, and no last
      `tool_calls` with items. */
  lemma IsSimpleMessageMeaning(t: bytes)
    ensures IsSimpleMessage(t) <==>
      TopLevelMembers(t).Some?
      && var ms := TopLevelMembers(t).value;
      (forall n | 0 <= n < |ms| :: Readable(t, ms[n]))
      && (exists n | 0 <= n < |ms| :: KeyOf(t, ms[n]) == ROLE)
      && (forall n | 0 <= n < |ms| :: !BlockedRole(t, ms[n]))
      && !ToolCallsVerdict(t, MatchFrom(t, ms, TOOL_CALLS, None), false)
  {
    if TopLevelMembers(t).Some? {
      var ms := TopLevelMembers(t).value;
      ScanMembersReadable(t, ms, NOTHING_SEEN);
      if ScanMembers(t, ms, NOTHING_SEEN).Some? {
        ScanMembersRole(t, ms, NOTHING_SEEN);
        ScanMembersBlocked(t, ms, NOTHING_SEEN);
        ScanMembersToolCalls(t, ms, NOTHING_SEEN);
      }
    }
  }

  // ---------------------------------------------------------------------
  // The messages array

  /** The item loop of `messages_inner_bounds_if_simple`, entered after `[`
      or after a `,`: the index of the closing `]` when every item passes
      `ok`. The messages array uses `IsSimpleMessage` for `ok`; the lemmas
      below hold for any item test. */
  function SimpleItemsLoop(t: bytes, i: nat, ok: bytes -> bool): (r: Option<nat>)
    requires i <= |t|
    ensures r.Some? ==> WsEnd(t, i) <= r.value < |t| && t[r.value] == ']'
    decreases |t| - i
  {
    var j := WsEnd(t, i);
    if j >= |t| then None
    else if t[j] == ']' then Some(j)
    else match ValueEnd(t, j)
      case None => None
      case Some(e) =>
        WsEndIdempotent(t, i);
        if !ok(t[j..e]) then None
        else match SeparatorStep(t, e)
          case Stop(res) => res
          case Next(n) => SimpleItemsLoop(t, n, ok)
  }

  /** What the item loop does after an item: stop with a result, or go on
      at the given index. */
  datatype ItemStep = Stop(result: Option<nat>) | Next(next: nat)

  /** The separator after an item ending at `e`: a `,` goes on with the
      next item, a `]` closes the array, anything else stops the loop. */
  function SeparatorStep(t: bytes, e: nat): (r: ItemStep)
    requires e <= |t|
    ensures r.Next? ==> e < r.next <= |t| && t[r.next - 1] == ','
    ensures r.Stop? && r.result.Some? ==> e <= r.result.value < |t| && t[r.result.value] == ']'
  {
    var d := WsEnd(t, e);
    if d >= |t| then Stop(None)
    else if t[d] == ',' then Next(d + 1)
    else if t[d] == ']' then Stop(Some(d))
    else Stop(None)
  }

  /** The loop's result from a step. */
  function ItemsAfterStep(t: bytes, step: ItemStep, ok: bytes -> bool): Option<nat>
  {
    match step
    case Stop(res) => res
    case Next(n) => if n <= |t| then SimpleItemsLoop(t, n, ok) else None
  }

  /** The loop before an item: it stops at the end of input, at `]`, or
      at a token that does not scan. */
  lemma SimpleItemsExit(t: bytes, i: nat, j: nat, ok: bytes -> bool)
    requires i <= |t| && j == WsEnd(t, i)
    ensures j >= |t| ==> SimpleItemsLoop(t, i, ok).None?
    ensures j < |t| && t[j] == ']' ==> SimpleItemsLoop(t, i, ok) == Some(j)
    ensures j < |t| && t[j] != ']' && ValueEnd(t, j).None? ==> SimpleItemsLoop(t, i, ok).None?
  {
  }

  /** The loop at an item that scans to `e`: the item test, then the
      separator. */
  lemma SimpleItemsAfter(t: bytes, i: nat, j: nat, e: nat, ok: bytes -> bool)
    requires i <= |t| && j == WsEnd(t, i) && j < |t| && t[j] != ']' && ValueEnd(t, j) == Some(e)
    ensures j < e <= |t|
    ensures SimpleItemsLoop(t, i, ok) == if ok(t[j..e]) then ItemsAfterStep(t, SeparatorStep(t, e), ok) else None
  {
    WsEndIdempotent(t, i);
  }

  /** The end of `t[lo..hi]` with trailing JSON whitespace removed. */
  function TrimWsBack(t: bytes, lo: nat, hi: nat): (r: nat)
    requires lo <= hi <= |t|
    ensures lo <= r <= hi
    decreases hi
  {
    if hi > lo && IsJsonWs(t[hi - 1]) then TrimWsBack(t, lo, hi - 1) else hi
  }

  /** Trimming stops at a non-whitespace byte and removes only whitespace. */
  lemma {:induction false} TrimWsBackTrims(t: bytes, lo: nat, hi: nat)
    requires lo <= hi <= |t|
    ensures var r := TrimWsBack(t, lo, hi);
      (r > lo ==> !IsJsonWs(t[r - 1])) && forall k | r <= k < hi :: IsJsonWs(t[k])
    decreases hi
  {
    if hi > lo && IsJsonWs(t[hi - 1]) {
      TrimWsBackTrims(t, lo, hi - 1);
    }
  }

  /** The bounds of a bracketed array whose items all pass `ok` and that
      has nothing but whitespace after it: the range between the brackets,
      whitespace trimmed at both ends. */
  function InnerBounds(t: bytes, ok: bytes -> bool): (r: Option<(nat, nat)>)
    ensures r.Some? ==> r.value.0 <= r.value.1 <= |t|
  {
    var start := WsEnd(t, 0);
    if start >= |t| || t[start] != '[' then None
    else match SimpleItemsLoop(t, start + 1, ok)
      case None => None
      case Some(pe) =>
        if WsEnd(t, pe + 1) != |t| then None
        else
          var a := WsEnd(t, start + 1);
          Some((a, TrimWsBack(t, a, pe)))
  }

  /** `messages_inner_bounds_if_simple`: the bounds of an array of simple
      messages. */
  function MessagesInnerBounds(t: bytes): (r: Option<(nat, nat)>)
  {
    InnerBounds(t, IsSimpleMessage)
  }

  /** An accepted array that is not empty starts with an item that passes
      the test. */
  lemma SimpleItemsFirstItem(t: bytes, i: nat, ok: bytes -> bool)
    requires i <= |t| && SimpleItemsLoop(t, i, ok).Some? && WsEnd(t, i) < SimpleItemsLoop(t, i, ok).value
    ensures ValueEnd(t, WsEnd(t, i)).Some? && ok(t[WsEnd(t, i)..ValueEnd(t, WsEnd(t, i)).value])
  {
    var j := WsEnd(t, i);
    SimpleItemsExit(t, i, j, ok);
    SimpleItemsAfter(t, i, j, ValueEnd(t, j).value, ok);
  }

  /** What the bounds mean for the array: the input is `[` and `]` with
      only whitespace around them; the range starts after the whitespace
      that follows `[` and ends where the whitespace before `]` begins. */
  lemma InnerBoundsArray(t: bytes, ok: bytes -> bool)
    ensures InnerBounds(t, ok).Some? ==>
      var start := WsEnd(t, 0);
      var b := InnerBounds(t, ok).value.1;
      start < |t| && t[start] == '[' && InnerBounds(t, ok).value.0 == WsEnd(t, start + 1)
      && exists pe | b <= pe < |t| :: t[pe] == ']' && WsEnd(t, pe + 1) == |t| && forall k | b <= k < pe :: IsJsonWs(t[k])
  {
    var start := WsEnd(t, 0);
    if InnerBounds(t, ok).Some? {
      var pe := SimpleItemsLoop(t, start + 1, ok).value;
      TrimWsBackTrims(t, WsEnd(t, start + 1), pe);
      assert t[pe] == ']' && WsEnd(t, pe + 1) == |t|;
    }
  }

  /** The range does not end in whitespace. */
  lemma InnerBoundsTrimmed(t: bytes, ok: bytes -> bool)
    ensures InnerBounds(t, ok).Some? && InnerBounds(t, ok).value.0 < InnerBounds(t, ok).value.1 ==>
      !IsJsonWs(t[InnerBounds(t, ok).value.1 - 1])
  {
    var start := WsEnd(t, 0);
    if InnerBounds(t, ok).Some? {
      var pe := SimpleItemsLoop(t, start + 1, ok).value;
      TrimWsBackTrims(t, WsEnd(t, start + 1), pe);
    }
  }

  /** A non-empty range starts with an item that passes the test: for the
      messages array, a simple message. */
  lemma InnerBoundsFirstItem(t: bytes, ok: bytes -> bool)
    ensures InnerBounds(t, ok).Some? && InnerBounds(t, ok).value.0 < InnerBounds(t, ok).value.1 ==>
      var a := InnerBounds(t, ok).value.0;
      ValueEnd(t, a).Some? && ok(t[a..ValueEnd(t, a).value])
  {
    var start := WsEnd(t, 0);
    if InnerBounds(t, ok).Some? && InnerBounds(t, ok).value.0 < InnerBounds(t, ok).value.1 {
      SimpleItemsFirstItem(t, start + 1, ok);
    }
  }

  method MessagesInnerBoundsIfSimple(t: bytes) returns (r: Option<(nat, nat)>)
    ensures r == MessagesInnerBounds(t)
  {
    var start := SkipWs(t, 0);
    if start >= |t| || t[start] != '[' {
      return None;
    }
    var payloadStart := start + 1;
    var payloadEnd := ScanSimpleItems(t, payloadStart, IsSimpleMessage);
    if payloadEnd.None? {
      return None;
    }
    var tail := SkipWs(t, payloadEnd.value + 1);
    if tail != |t| {
      return None;
    }
    var innerStart := SkipWs(t, payloadStart);
    var innerEnd := TrimTrailingWs(t, innerStart, payloadEnd.value);
    return Some((innerStart, innerEnd));
  }

  /** The item loop itself. */
  method ScanSimpleItems(t: bytes, i0: nat, ghost ok: bytes -> bool) returns (r: Option<nat>)
    requires i0 <= |t|
    requires forall x {:trigger IsSimpleMessage(x)} :: ok(x) == IsSimpleMessage(x)
    ensures r == SimpleItemsLoop(t, i0, ok)
  {
    var i := i0;
    while true
      invariant i <= |t|
      invariant SimpleItemsLoop(t, i, ok) == SimpleItemsLoop(t, i0, ok)
      decreases |t| - i
    {
      var j := SkipWs(t, i);
      SimpleItemsExit(t, i, j, ok);
      if j >= |t| {
        return None;
      }
      if t[j] == ']' {
        return Some(j);
      }
      var item := ReadItemToken(t, i, j, ok);
      if item.None? {
        return None;
      }
      var step := ReadSeparator(t, item.value);
      match step {
        case Stop(result) => return result;
        case Next(next) => i := next;
      }
    }
  }

  /** The separator loop step: whitespace, then `,` or `]`. */
  method ReadSeparator(t: bytes, e: nat) returns (r: ItemStep)
    requires e <= |t|
    ensures r == SeparatorStep(t, e)
  {
    var d := SkipWs(t, e);
    r := Stop(None);
    if d < |t| && t[d] == ',' {
      r := Next(d + 1);
    } else if d < |t| && t[d] == ']' {
      r := Stop(Some(d));
    }
  }

  /** The item's token: its end when it scans and is a simple message. */
  method ReadItemToken(t: bytes, i: nat, j: nat, ghost ok: bytes -> bool) returns (r: Option<nat>)
    requires i <= |t| && j == WsEnd(t, i) && j < |t| && t[j] != ']'
    requires forall x {:trigger IsSimpleMessage(x)} :: ok(x) == IsSimpleMessage(x)
    ensures r.None? ==> SimpleItemsLoop(t, i, ok).None?
    ensures r.Some? ==> i < r.value <= |t| && SimpleItemsLoop(t, i, ok) == ItemsAfterStep(t, SeparatorStep(t, r.value), ok)
  {
    var itemEnd := ParseValueEnd(t, j);
    if itemEnd.None? {
      return None;
    }
    var e := itemEnd.value;
    SimpleItemsAfter(t, i, j, e, ok);
    var simple := MessageTokenIsSimpleFcInject(t[j..e]);
    if !simple {
      return None;
    }
    return Some(e);
  }

  /** The trailing-whitespace loop: steps back over whitespace, never
      below `lo`. */
  method TrimTrailingWs(t: bytes, lo: nat, hi: nat) returns (r: nat)
    requires lo <= hi <= |t|
    ensures r == TrimWsBack(t, lo, hi)
  {
    r := hi;
    while r > lo && IsJsonWs(t[r - 1])
      invariant lo <= r <= hi
      invariant TrimWsBack(t, lo, r) == TrimWsBack(t, lo, hi)
      decreases r
    {
      r := r - 1;
    }
  }

  // ---------------------------------------------------------------------
  // Injecting the system message

  /** `inject_system_message_from_inner_bounds`: a new array whose first
      item is the system message, followed by the items in `src[a..b]`
      when that range is not empty. */
  function InjectFromInnerBounds(src: bytes, a: nat, b: nat, sys: bytes): bytes
    requires b <= |src|
  {
    "[" + sys + (if a < b then "," + src[a..b] else []) + "]"
  }

  /** `inject_system_message_into_messages_out`: None when the array is not
      a simple messages array. */
  function InjectIntoMessages(value: bytes, sys: bytes): Option<bytes>
  {
    match MessagesInnerBounds(value)
    case None => None
    case Some((a, b)) => Some(InjectFromInnerBounds(value, a, b, sys))
  }

  method InjectSystemMessageFromInnerBounds(src: bytes, a: nat, b: nat, sys: bytes, out: bytes) returns (r: bytes)
    requires b <= |src|
    ensures r == out + InjectFromInnerBounds(src, a, b, sys)
  {
    r := out + "[" + sys;
    if a < b {
      r := r + "," + src[a..b];
    }
    r := r + "]";
  }

  method InjectSystemMessageIntoMessagesOut(value: bytes, sys: bytes, out: bytes) returns (ok: bool, r: bytes)
    ensures ok == InjectIntoMessages(value, sys).Some?
    ensures r == if ok then out + InjectIntoMessages(value, sys).value else out
  {
    var bounds := MessagesInnerBoundsIfSimple(value);
    if bounds.None? {
      return false, out;
    }
    r := InjectSystemMessageFromInnerBounds(value, bounds.value.0, bounds.value.1, sys, out);
    ok := true;
  }

  /** `append_json_string_quoted`: the model name written as a JSON string
      literal, escaped byte by byte with the lower-case `HEX` table. */
  method AppendJsonStringQuoted(out: bytes, value: bytes) returns (r: bytes)
    ensures r == out + Util.JsonQuoted(value)
  {
    var body: bytes := [];
    var i := 0;
    while i < |value|
      invariant i <= |value|
      invariant body == Util.EscapeBody(value[..i])
    {
      assert value[..i + 1][..i] == value[..i];
      var b := value[i];
      var piece: bytes;
      if b == '"' {
        piece := "\\\"";
      } else if b == '\\' {
        piece := "\\\\";
      } else if b == '\n' {
        piece := "\\n";
      } else if b == '\r' {
        piece := "\\r";
      } else if b == '\t' {
        piece := "\\t";
      } else if b as int == 0x08 {
        piece := "\\b";
      } else if b as int == 0x0C {
        piece := "\\f";
      } else if b as int <= 0x1F {
        piece := "\\u00" + [Util.HexDigit(b as int / 16), Util.HexDigit(b as int % 16)];
      } else {
        piece := [b];
      }
      body := body + piece;
      i := i + 1;
    }
    assert value[..i] == value;
    r := out + "\"" + body + "\"";
  }

  // ---------------------------------------------------------------------
  // Rebuilding the request body

  const MODEL: bytes := "model"
  const MESSAGES: bytes := "messages"
  const TOOLS: bytes := "tools"
  const TOOL_CHOICE: bytes := "tool_choice"

  /** The `"model":"<name>"` member the rebuilt body always carries. */
  function ModelMember(model: bytes): bytes {
    "\"model\":" + Util.JsonQuoted(model)
  }

  /** What the rebuild writes besides the copied members: the upstream
      model name, the system message and the messages array's inner
      bounds when the caller already knows them. */
  datatype InjectArgs = InjectArgs(model: bytes, sys: bytes, hint: Option<(nat, nat)>)

  /** The output written so far and the loop's three flags. */
  datatype BuildState = BuildState(out: bytes, wroteAny: bool, sawModel: bool, sawMessages: bool)

  const BUILD_START: BuildState := BuildState("{", false, false, false)

  /** The new `messages` value: from the known inner bounds when they lie
      inside the value, otherwise by scanning the value. */
  function MessagesValueOut(body: bytes, vs: nat, ve: nat, args: InjectArgs): Option<bytes>
    requires vs <= ve <= |body|
  {
    if args.hint.Some? && args.hint.value.0 >= vs && args.hint.value.1 <= ve then
      Some(InjectFromInnerBounds(body, args.hint.value.0, args.hint.value.1, args.sys))
    else InjectIntoMessages(body[vs..ve], args.sys)
  }

  /** The value written for a member that is kept: the upstream model for
      `model`, the array with the system message for `messages`, the raw
      value for anything else. */
  function MemberValueOut(body: bytes, m: Member, args: InjectArgs): Option<bytes>
    requires InBounds(body, m)
  {
    var key := KeyOf(body, m);
    if key == MODEL then Some(Util.JsonQuoted(args.model))
    else if key == MESSAGES then MessagesValueOut(body, m.valueStart, m.valueEnd, args)
    else Some(body[m.valueStart..m.valueEnd])
  }

  /** One member of the request: `tools` and `tool_choice` are dropped;
      any other member is written with its raw key and its new value. */
  function EmitMember(body: bytes, m: Member, args: InjectArgs, st: BuildState): Option<BuildState>
    requires InBounds(body, m)
  {
    var key := KeyOf(body, m);
    if key == TOOLS || key == TOOL_CHOICE then Some(st)
    else
      var head := st.out + (if st.wroteAny then "," else []) + body[m.keyStart - 1..m.keyEnd + 1] + ":";
      match MemberValueOut(body, m, args)
      case None => None
      case Some(v) => Some(BuildState(head + v, true, st.sawModel || key == MODEL, st.sawMessages || key == MESSAGES))
  }

  /** A member as the loop takes it: an escaped key gives up. */
  function EmitStep(body: bytes, m: Member, args: InjectArgs, st: BuildState): Option<BuildState>
    requires InBounds(body, m)
  {
    if HasByte(KeyOf(body, m), '\\') then None else EmitMember(body, m, args, st)
  }

  /** After the closing brace: None without `messages`; a missing `model`
      is appended. */
  function FinishBody(st: BuildState, model: bytes): Option<bytes>
  {
    if !st.sawMessages then None
    else if st.sawModel then Some(st.out + "}")
    else Some(st.out + (if st.wroteAny then "," else []) + ModelMember(model) + "}")
  }

  /** What the rebuild loop does with the member whose key starts at `j`. */
  datatype BuildTurn =
    | Done(result: Result<Option<bytes>, CanonicalError>)
    | Close(last: BuildState)
    | Again(at: nat, next: BuildState)

  /** Reading a member's key and value: the member, or what the loop
      returns instead. */
  datatype MemberRead = Read(m: Member) | Fail(result: Result<Option<bytes>, CanonicalError>)

  const BODY_ERROR: CanonicalError := InvalidRequest(INVALID_BODY)

  /** The start of a loop turn, in the order the code takes its steps: an
      unterminated key string or value is an error, an escaped key or a
      missing colon gives up. */
  function ReadMember(body: bytes, j: nat): (r: MemberRead)
    ensures r.Read? ==> InBounds(body, r.m) && r.m.keyStart == j + 1
    ensures r.Fail? ==> r.result == Ok(None) || r.result == Err(BODY_ERROR)
  {
    match StringEnd(body, j)
    case None => Fail(Err(BODY_ERROR))
    case Some(k) =>
      if HasByte(body[j + 1..k - 1], '\\') then Fail(Ok(None))
      else
        var c := WsEnd(body, k);
        if c >= |body| || body[c] != ':' then Fail(Ok(None))
        else
          var vs := WsEnd(body, c + 1);
          match ValueEnd(body, vs)
          case None => Fail(Err(BODY_ERROR))
          case Some(ve) =>
            WsEndIdempotent(body, vs);
            Read(Member(j + 1, k - 1, vs, ve))
  }

  /** The rest of a turn once the member is read: it is written, then the
      separator after its value decides. */
  function AfterValue(body: bytes, m: Member, args: InjectArgs, st: BuildState): (r: BuildTurn)
    requires InBounds(body, m)
    ensures r.Again? ==> m.valueEnd < r.at <= |body|
  {
    match EmitMember(body, m, args, st)
    case None => Done(Ok(None))
    case Some(st') =>
      var d := WsEnd(body, m.valueEnd);
      if d < |body| && body[d] == ',' then Again(d + 1, st')
      else if d < |body| && body[d] == '}' then Close(st')
      else Done(Ok(None))
  }

  /** One turn of the rebuild loop at the member whose key starts at `j`:
      a member the scanner cannot read ends the loop with what the code
      meets first; otherwise the member is written and the separator after
      it decides. */
  function BuildStep(body: bytes, j: nat, args: InjectArgs, st: BuildState): (r: BuildTurn)
    ensures r.Again? ==> j < r.at <= |body|
    ensures r.Done? ==> r.result == Ok(None) || r.result == Err(BODY_ERROR)
  {
    match MemberAt(body, j)
    case None => Done(MemberFailure(body, j))
    case Some((m, d)) =>
      match EmitStep(body, m, args, st)
      case None => Done(Ok(None))
      case Some(st') =>
        if d < |body| && body[d] == ',' then Again(d + 1, st')
        else if d < |body| && body[d] == '}' then Close(st')
        else Done(Ok(None))
  }

  /** What the loop returns at a member the scanner cannot read: the
      error or the give-up that reading it meets first. */
  function MemberFailure(body: bytes, j: nat): (r: Result<Option<bytes>, CanonicalError>)
    ensures r == Ok(None) || r == Err(BODY_ERROR)
  {
    match ReadMember(body, j)
    case Fail(res) => res
    case Read(_) => Ok(None)
  }

  /** `build_openai_simple_inject_json_body`. */
  function BuildBody(body: bytes, args: InjectArgs): (r: Result<Option<bytes>, CanonicalError>)
    ensures r.Err? ==> r.error == BODY_ERROR
  {
    var i := WsEnd(body, 0);
    if i >= |body| || body[i] != '{' then Ok(None)
    else BuildFrom(body, i + 1, args, BUILD_START)
  }

  // The rebuild, specified on the member list

  /** How the loop's reading of members ends: at the closing brace, or with
      what the loop returns where it stops reading. */
  datatype RunEnd = Closed | Broken(result: Result<Option<bytes>, CanonicalError>)

  /** The members the loop reads from `i` on, in order, and how it ends. */
  datatype MemberRun = MemberRun(members: seq<Member>, end: RunEnd)

  function RunFrom(body: bytes, i: nat): (r: MemberRun)
    requires i <= |body|
    ensures forall n | 0 <= n < |r.members| :: InBounds(body, r.members[n])
    ensures r.end.Broken? ==> r.end.result == Ok(None) || r.end.result == Err(BODY_ERROR)
    decreases |body| - i
  {
    var j := WsEnd(body, i);
    if j >= |body| || (body[j] != '}' && body[j] != '"') then MemberRun([], Broken(Ok(None)))
    else if body[j] == '}' then MemberRun([], Closed)
    else match MemberAt(body, j)
      case None => MemberRun([], Broken(MemberFailure(body, j)))
      case Some((m, d)) =>
        if d < |body| && body[d] == ',' then
          var rest := RunFrom(body, d + 1);
          MemberRun([m] + rest.members, rest.end)
        else if d < |body| && body[d] == '}' then MemberRun([m], Closed)
        else MemberRun([m], Broken(Ok(None)))
  }

  /** The result once the members read have been written: giving up at a
      member wins, since the loop stops there. */
  function Conclude(written: Option<BuildState>, end: RunEnd, model: bytes): Result<Option<bytes>, CanonicalError>
  {
    match written
    case None => Ok(None)
    case Some(st) =>
      match end
      case Closed => Ok(FinishBody(st, model))
      case Broken(res) => res
  }

  /** The rebuild loop entered at `i` (after `{` or a `,`) with state `st`. */
  function BuildFrom(body: bytes, i: nat, args: InjectArgs, st: BuildState): (r: Result<Option<bytes>, CanonicalError>)
    requires i <= |body|
  {
    var run := RunFrom(body, i);
    Conclude(EmitAll(body, run.members, args, st), run.end, args.model)
  }

  /** The members written in order; None when one of them gives up. */
  function EmitAll(body: bytes, ms: seq<Member>, args: InjectArgs, st: BuildState): Option<BuildState>
    requires forall n | 0 <= n < |ms| :: InBounds(body, ms[n])
    decreases |ms|
  {
    if |ms| == 0 then Some(st)
    else match EmitStep(body, ms[0], args, st)
      case None => None
      case Some(st') => EmitAll(body, ms[1..], args, st')
  }

  lemma EmitAllCons(body: bytes, m: Member, rest: seq<Member>, args: InjectArgs, st: BuildState)
    requires InBounds(body, m) && forall n | 0 <= n < |rest| :: InBounds(body, rest[n])
    ensures EmitAll(body, [m] + rest, args, st) ==
      match EmitStep(body, m, args, st)
      case None => None
      case Some(st') => EmitAll(body, rest, args, st')
  {
    assert ([m] + rest)[0] == m && ([m] + rest)[1..] == rest;
  }

  /** Reading a member agrees with the member scanner: it fails where the
      scanner fails, and otherwise reads the same member unless its key is
      escaped. */
  lemma ReadMemberFails(body: bytes, j: nat)
    requires MemberAt(body, j).None?
    ensures ReadMember(body, j).Fail?
  {
  }

  lemma ReadMemberAgrees(body: bytes, j: nat, m: Member, d: nat)
    requires MemberAt(body, j) == Some((m, d))
    ensures ReadMember(body, j) == if HasByte(KeyOf(body, m), '\\') then Fail(Ok(None)) else Read(m)
    ensures d == WsEnd(body, m.valueEnd)
  {
  }

  /** The loop body's reading and writing steps make up one turn. */
  lemma BuildStepAgrees(body: bytes, j: nat, args: InjectArgs, st: BuildState)
    ensures BuildStep(body, j, args, st) ==
      match ReadMember(body, j)
      case Fail(res) => Done(res)
      case Read(m) => AfterValue(body, m, args, st)
  {
    if MemberAt(body, j).None? {
      ReadMemberFails(body, j);
    } else {
      var (m, d) := MemberAt(body, j).value;
      ReadMemberAgrees(body, j, m, d);
    }
  }

  /** A loop turn that ends the loop returns what the rebuild returns. */
  lemma BuildFromDone(body: bytes, i: nat, args: InjectArgs, st: BuildState, j: nat)
    requires i <= |body| && j == WsEnd(body, i) && j < |body| && body[j] == '"'
    requires BuildStep(body, j, args, st).Done?
    ensures BuildFrom(body, i, args, st) == BuildStep(body, j, args, st).result
  {
    if MemberAt(body, j).Some? {
      var (m, d) := MemberAt(body, j).value;
      var rest := if d < |body| && body[d] == ',' then RunFrom(body, d + 1).members else [];
      EmitAllCons(body, m, rest, args, st);
    }
  }

  /** A loop turn that meets the closing brace finishes the body. */
  lemma BuildFromClose(body: bytes, i: nat, args: InjectArgs, st: BuildState, j: nat)
    requires i <= |body| && j == WsEnd(body, i) && j < |body| && body[j] == '"'
    requires BuildStep(body, j, args, st).Close?
    ensures BuildFrom(body, i, args, st) == Ok(FinishBody(BuildStep(body, j, args, st).last, args.model))
  {
    var (m, d) := MemberAt(body, j).value;
    EmitAllCons(body, m, [], args, st);
    assert [m] + [] == [m];
  }

  /** A loop turn that meets `,` read a member, wrote it and met the comma. */
  lemma BuildStepAgain(body: bytes, j: nat, args: InjectArgs, st: BuildState) returns (m: Member, d: nat)
    requires BuildStep(body, j, args, st).Again?
    ensures MemberAt(body, j) == Some((m, d)) && d < |body| && body[d] == ','
    ensures BuildStep(body, j, args, st).at == d + 1
    ensures EmitStep(body, m, args, st) == Some(BuildStep(body, j, args, st).next)
  {
    m, d := MemberAt(body, j).value.0, MemberAt(body, j).value.1;
  }

  /** A member written and followed by `,` hands the rebuild on to the next
      member. */
  lemma BuildFromAgain(body: bytes, i: nat, args: InjectArgs, st: BuildState, j: nat, m: Member, d: nat, st': BuildState)
    requires i <= |body| && j == WsEnd(body, i) && j < |body| && body[j] == '"'
    requires MemberAt(body, j) == Some((m, d)) && d < |body| && body[d] == ','
    requires EmitStep(body, m, args, st) == Some(st')
    ensures BuildFrom(body, i, args, st) == BuildFrom(body, d + 1, args, st')
  {
    RunFromComma(body, i, j, m, d);
    ConcludeAfter(body, m, RunFrom(body, d + 1), args, st, st');
  }

  /** Writing one more member first changes only the state the rest start from. */
  lemma ConcludeAfter(body: bytes, m: Member, run: MemberRun, args: InjectArgs, st: BuildState, st': BuildState)
    requires InBounds(body, m) && forall n | 0 <= n < |run.members| :: InBounds(body, run.members[n])
    requires EmitStep(body, m, args, st) == Some(st')
    ensures Conclude(EmitAll(body, [m] + run.members, args, st), run.end, args.model) ==
            Conclude(EmitAll(body, run.members, args, st'), run.end, args.model)
  {
    EmitAllCons(body, m, run.members, args, st);
  }

  /** A member followed by `,` heads the members read from there on. */
  lemma RunFromComma(body: bytes, i: nat, j: nat, m: Member, d: nat)
    requires i <= |body| && j == WsEnd(body, i) && j < |body| && body[j] == '"'
    requires MemberAt(body, j) == Some((m, d)) && d < |body| && body[d] == ','
    ensures RunFrom(body, i) == MemberRun([m] + RunFrom(body, d + 1).members, RunFrom(body, d + 1).end)
  {
  }

  /** The loop reads the object's members exactly when it is well formed. */
  lemma {:induction false} RunFromMembers(body: bytes, i: nat)
    requires i <= |body|
    ensures MembersFrom(body, i) == if RunFrom(body, i).end.Closed? then Some(RunFrom(body, i).members) else None
    decreases |body| - i
  {
    var j := WsEnd(body, i);
    if j < |body| && body[j] == '"' && MemberAt(body, j).Some? {
      var (m, d) := MemberAt(body, j).value;
      if d < |body| && body[d] == ',' {
        var rest := RunFrom(body, d + 1);
        assert MembersFrom(body, d + 1) == if rest.end.Closed? then Some(rest.members) else None by {
          RunFromMembers(body, d + 1);
        }
        assert RunFrom(body, i) == MemberRun([m] + rest.members, rest.end) by {
          RunFromComma(body, i, j, m, d);
        }
        MembersFromStep(body, i, j, m, d);
      } else if d < |body| {
        MembersFromStep(body, i, j, m, d);
      }
    }
  }

  // What the rebuilt body is, stated without the loop

  /** Whether one of the members has the key `key`. */
  predicate HasKey(body: bytes, ms: seq<Member>, key: bytes)
    requires forall n | 0 <= n < |ms| :: InBounds(body, ms[n])
    decreases |ms|
  {
    |ms| > 0 && (KeyOf(body, ms[0]) == key || HasKey(body, ms[1..], key))
  }

  lemma {:induction false} HasKeyMeaning(body: bytes, ms: seq<Member>, key: bytes)
    requires forall n | 0 <= n < |ms| :: InBounds(body, ms[n])
    ensures HasKey(body, ms, key) <==> exists n | 0 <= n < |ms| :: KeyOf(body, ms[n]) == key
    decreases |ms|
  {
    if |ms| > 0 {
      HasKeyMeaning(body, ms[1..], key);
      if HasKey(body, ms[1..], key) {
        var n :| 0 <= n < |ms[1..]| && KeyOf(body, ms[1..][n]) == key;
        assert ms[1..][n] == ms[n + 1];
      }
      if exists n | 0 <= n < |ms| :: KeyOf(body, ms[n]) == key {
        var n :| 0 <= n < |ms| && KeyOf(body, ms[n]) == key;
        if n > 0 {
          assert ms[1..][n - 1] == ms[n];
        }
      }
    }
  }

  /** A member as written to the output: its raw key, a colon, its value. */
  function MemberText(body: bytes, m: Member, value: bytes): bytes
    requires InBounds(body, m)
  {
    body[m.keyStart - 1..m.keyEnd + 1] + ":" + value
  }

  /** The texts of the members the rebuild keeps, in order (`tools` and
      `tool_choice` are dropped); None when any member makes it give up. */
  function KeptTexts(body: bytes, ms: seq<Member>, args: InjectArgs): Option<seq<bytes>>
    requires forall n | 0 <= n < |ms| :: InBounds(body, ms[n])
    decreases |ms|
  {
    if |ms| == 0 then Some([])
    else
      var key := KeyOf(body, ms[0]);
      var rest := KeptTexts(body, ms[1..], args);
      if HasByte(key, '\\') || rest.None? then None
      else if key == TOOLS || key == TOOL_CHOICE then rest
      else match MemberValueOut(body, ms[0], args)
        case None => None
        case Some(v) => Some([MemberText(body, ms[0], v)] + rest.value)
  }

  /** The rebuilt body of a well-formed request with members `ms`: the kept
      members joined by commas, with a `model` member appended when there
      was none; None without a `messages` member. */
  function RebuiltBody(body: bytes, ms: seq<Member>, args: InjectArgs): Option<bytes>
    requires forall n | 0 <= n < |ms| :: InBounds(body, ms[n])
  {
    match KeptTexts(body, ms, args)
    case None => None
    case Some(parts) =>
      if !HasKey(body, ms, MESSAGES) then None
      else
        var all := parts + (if HasKey(body, ms, MODEL) then [] else [ModelMember(args.model)]);
        Some("{" + JoinWith(all, ',') + "}")
  }

  /** Writing one member: the state after it, in terms of its text. */
  lemma EmitStepWrites(body: bytes, m: Member, args: InjectArgs, st: BuildState)
    requires InBounds(body, m)
    ensures EmitStep(body, m, args, st).Some? <==>
      !HasByte(KeyOf(body, m), '\\') &&
      (KeyOf(body, m) == TOOLS || KeyOf(body, m) == TOOL_CHOICE || MemberValueOut(body, m, args).Some?)
    ensures EmitStep(body, m, args, st).Some? && (KeyOf(body, m) == TOOLS || KeyOf(body, m) == TOOL_CHOICE) ==>
      EmitStep(body, m, args, st).value == st
    ensures EmitStep(body, m, args, st).Some? && KeyOf(body, m) != TOOLS && KeyOf(body, m) != TOOL_CHOICE ==>
      EmitStep(body, m, args, st).value ==
        BuildState(st.out + (if st.wroteAny then "," else []) + MemberText(body, m, MemberValueOut(body, m, args).value), true,
                   st.sawModel || KeyOf(body, m) == MODEL, st.sawMessages || KeyOf(body, m) == MESSAGES)
  {
    if EmitStep(body, m, args, st).Some? && KeyOf(body, m) != TOOLS && KeyOf(body, m) != TOOL_CHOICE {
      var v := MemberValueOut(body, m, args).value;
      var raw := body[m.keyStart - 1..m.keyEnd + 1];
      assert st.out + (if st.wroteAny then "," else []) + raw + ":" + v ==
             st.out + (if st.wroteAny then "," else []) + (raw + ":" + v);
    }
  }

  /** Writing the members in order appends their kept texts, joined by
      commas, and records whether `model` and `messages` were among them. */
  lemma {:induction false} EmitAllWrites(body: bytes, ms: seq<Member>, args: InjectArgs, st: BuildState)
    requires forall n | 0 <= n < |ms| :: InBounds(body, ms[n])
    ensures EmitAll(body, ms, args, st).Some? == KeptTexts(body, ms, args).Some?
    ensures KeptTexts(body, ms, args).Some? ==>
      var parts := KeptTexts(body, ms, args).value;
      var w := EmitAll(body, ms, args, st).value;
      && w.out == st.out + (if st.wroteAny && |parts| > 0 then "," else []) + JoinWith(parts, ',')
      && w.wroteAny == (st.wroteAny || |parts| > 0)
      && w.sawModel == (st.sawModel || HasKey(body, ms, MODEL))
      && w.sawMessages == (st.sawMessages || HasKey(body, ms, MESSAGES))
    decreases |ms|
  {
    if |ms| > 0 {
      var m, rest := ms[0], ms[1..];
      assert ms == [m] + rest;
      EmitAllCons(body, m, rest, args, st);
      EmitStepWrites(body, m, args, st);
      match EmitStep(body, m, args, st)
      case None =>
      case Some(st') =>
        EmitAllWrites(body, rest, args, st');
        if KeptTexts(body, rest, args).Some? && KeyOf(body, m) != TOOLS && KeyOf(body, m) != TOOL_CHOICE {
          var t := MemberText(body, m, MemberValueOut(body, m, args).value);
          var tail := KeptTexts(body, rest, args).value;
          assert KeptTexts(body, ms, args).value == [t] + tail;
          JoinAfter(st.out, st.wroteAny, t, tail);
        }
    }
  }

  /** The text written for one more part, then the rest joined, is the
      parts joined. */
  lemma JoinAfter(out: bytes, wroteAny: bool, t: bytes, tail: seq<bytes>)
    ensures out + (if wroteAny then "," else []) + t + (if true && |tail| > 0 then "," else []) + JoinWith(tail, ',') ==
            out + (if wroteAny && |[t] + tail| > 0 then "," else []) + JoinWith([t] + tail, ',')
  {
    assert ([t] + tail)[0] == t && ([t] + tail)[1..] == tail;
    assert JoinWith([t] + tail, ',') == t + (if |tail| > 0 then "," else []) + JoinWith(tail, ',');
  }

  /** Finishing a body whose members are the joined parts and include
      `model`. */
  lemma FinishJoinedWithModel(parts: seq<bytes>, w: BuildState, model: bytes)
    requires w.out == "{" + JoinWith(parts, ',') && w.sawMessages && w.sawModel
    ensures FinishBody(w, model) == Some("{" + JoinWith(parts + [], ',') + "}")
  {
    assert parts + [] == parts;
  }

  /** Finishing a body whose members are the joined parts and lack
      `model`: the model member is joined on. */
  lemma FinishJoinedAddsModel(parts: seq<bytes>, w: BuildState, model: bytes)
    requires w.out == "{" + JoinWith(parts, ',') && w.wroteAny == (|parts| > 0) && w.sawMessages && !w.sawModel
    ensures FinishBody(w, model) == Some("{" + JoinWith(parts + [ModelMember(model)], ',') + "}")
  {
    var mm := ModelMember(model);
    var sep: bytes := if |parts| > 0 then [','] else [];
    var joined := JoinWith(parts, ',');
    assert w.out + sep + mm + "}" == "{" + (joined + sep + mm) + "}" by {
      assert w.out == "{" + joined;
    }
    JoinWithSnoc(parts, mm, ',');
  }

  /** The rebuild of a well-formed request is the body `RebuiltBody`
      describes; an error only comes from a malformed one, and a malformed
      one never gives a body. */
  lemma BuildBodyMeaning(body: bytes, args: InjectArgs)
    ensures TopLevelMembers(body).Some? ==> BuildBody(body, args) == Ok(RebuiltBody(body, TopLevelMembers(body).value, args))
    ensures TopLevelMembers(body).None? ==> BuildBody(body, args) == Ok(None) || BuildBody(body, args) == Err(BODY_ERROR)
  {
    var i := WsEnd(body, 0);
    if i < |body| && body[i] == '{' {
      RunFromMembers(body, i + 1);
      var run := RunFrom(body, i + 1);
      if run.end.Closed? {
        var ms := run.members;
        EmitAllWrites(body, ms, args, BUILD_START);
        if KeptTexts(body, ms, args).Some? {
          assert EmitAll(body, ms, args, BUILD_START).value.out == "{" + JoinWith(KeptTexts(body, ms, args).value, ',');
          var parts, w := KeptTexts(body, ms, args).value, EmitAll(body, ms, args, BUILD_START).value;
          if w.sawMessages && w.sawModel {
            FinishJoinedWithModel(parts, w, args.model);
          } else if w.sawMessages {
            FinishJoinedAddsModel(parts, w, args.model);
          }
        }
      }
    }
  }

  /** `build_openai_simple_inject_json_body`: the loop over the top-level
      members, then the checks after the closing brace. */
  method BuildOpenAiSimpleInjectJsonBody(body: bytes, args: InjectArgs) returns (r: Result<Option<bytes>, CanonicalError>)
    ensures r == BuildBody(body, args)
  {
    var i := SkipWs(body, 0);
    if i >= |body| || body[i] != '{' {
      return Ok(None);
    }
    i := i + 1;
    var st := BUILD_START;
    while true
      invariant i <= |body|
      invariant BuildFrom(body, i, args, st) == BuildBody(body, args)
      decreases |body| - i
    {
      var j := SkipWs(body, i);
      if j >= |body| || (body[j] != '}' && body[j] != '"') {
        return Ok(None);
      }
      if body[j] == '}' {
        break;
      }
      var turn := BuildTurnAt(body, j, args, st);
      match turn {
        case Done(res) =>
          BuildFromDone(body, i, args, st, j);
          return res;
        case Close(last) =>
          BuildFromClose(body, i, args, st, j);
          st := last;
          break;
        case Again(at, next) =>
          ghost var m, d := BuildStepAgain(body, j, args, st);
          BuildFromAgain(body, i, args, st, j, m, d, next);
          i, st := at, next;
      }
    }
    var out := FinishBuild(st, args.model);
    r := Ok(out);
  }

  /** The loop body for the member whose key starts at `j`. */
  method BuildTurnAt(body: bytes, j: nat, args: InjectArgs, st: BuildState) returns (r: BuildTurn)
    ensures r == BuildStep(body, j, args, st)
  {
    var read := ReadMemberAt(body, j);
    BuildStepAgrees(body, j, args, st);
    if read.Fail? {
      return Done(read.result);
    }
    r := WriteMemberAndSeparator(body, read.m, args, st);
  }

  /** The start of the loop body: the key, the colon and the value. */
  method ReadMemberAt(body: bytes, j: nat) returns (r: MemberRead)
    ensures r == ReadMember(body, j)
  {
    var keyEnd := ParseStringEnd(body, j);
    if keyEnd.None? {
      return Fail(Err(BODY_ERROR));
    }
    r := ReadAfterKey(body, j, keyEnd.value);
  }

  /** The loop body after the key string that ends at `k`. */
  method ReadAfterKey(body: bytes, j: nat, k: nat) returns (r: MemberRead)
    requires StringEnd(body, j) == Some(k)
    ensures r == ReadMember(body, j)
  {
    if HasByte(body[j + 1..k - 1], '\\') {
      return Fail(Ok(None));
    }
    var c := SkipWs(body, k);
    if c >= |body| || body[c] != ':' {
      return Fail(Ok(None));
    }
    var vs := SkipWs(body, c + 1);
    var valueEnd := ParseValueEnd(body, vs);
    if valueEnd.None? {
      return Fail(Err(BODY_ERROR));
    }
    WsEndIdempotent(body, vs);
    r := Read(Member(j + 1, k - 1, vs, valueEnd.value));
  }

  /** The rest of the loop body once the member is read. */
  method WriteMemberAndSeparator(body: bytes, m: Member, args: InjectArgs, st: BuildState) returns (r: BuildTurn)
    requires InBounds(body, m)
    ensures r == AfterValue(body, m, args, st)
  {
    var emitted := EmitMemberOut(body, m, args, st);
    r := Done(Ok(None));
    if emitted.Some? {
      var d := SkipWs(body, m.valueEnd);
      if d < |body| && body[d] == ',' {
        r := Again(d + 1, emitted.value);
      } else if d < |body| && body[d] == '}' {
        r := Close(emitted.value);
      }
    }
  }

  /** Writing one member that is not dropped: a separator, the raw key, a
      colon and the new value. */
  method EmitMemberOut(body: bytes, m: Member, args: InjectArgs, st: BuildState) returns (r: Option<BuildState>)
    requires InBounds(body, m)
    ensures r == EmitMember(body, m, args, st)
  {
    var key := body[m.keyStart..m.keyEnd];
    r := Some(st);
    if key != TOOLS && key != TOOL_CHOICE {
      var out := st.out;
      if st.wroteAny {
        out := out + ",";
      }
      out := out + body[m.keyStart - 1..m.keyEnd + 1] + ":";
      assert out == st.out + (if st.wroteAny then "," else []) + body[m.keyStart - 1..m.keyEnd + 1] + ":";
      var written := WriteMemberValue(body, m, args, out);
      if written.Some? {
        r := Some(BuildState(written.value, true, st.sawModel || key == MODEL, st.sawMessages || key == MESSAGES));
      } else {
        r := None;
      }
    }
  }

  /** The value branches of the loop body, writing after `out`. */
  method WriteMemberValue(body: bytes, m: Member, args: InjectArgs, out: bytes) returns (r: Option<bytes>)
    requires InBounds(body, m)
    ensures r == match MemberValueOut(body, m, args)
      case None => None
      case Some(v) => Some(out + v)
  {
    var key := body[m.keyStart..m.keyEnd];
    if key == MODEL {
      var written := AppendJsonStringQuoted(out, args.model);
      return Some(written);
    } else if key == MESSAGES {
      r := WriteMessagesValue(body, m.valueStart, m.valueEnd, args, out);
    } else {
      r := Some(out + body[m.valueStart..m.valueEnd]);
    }
  }

  /** The `messages` branch: the known inner bounds when they lie inside
      the value, otherwise a scan of the value. */
  method WriteMessagesValue(body: bytes, vs: nat, ve: nat, args: InjectArgs, out: bytes) returns (r: Option<bytes>)
    requires vs <= ve <= |body|
    ensures r == match MessagesValueOut(body, vs, ve, args)
      case None => None
      case Some(v) => Some(out + v)
  {
    if args.hint.Some? && args.hint.value.0 >= vs && args.hint.value.1 <= ve {
      var written := InjectSystemMessageFromInnerBounds(body, args.hint.value.0, args.hint.value.1, args.sys, out);
      r := Some(written);
    } else {
      var ok, written := InjectSystemMessageIntoMessagesOut(body[vs..ve], args.sys, out);
      r := if ok then Some(written) else None;
    }
  }

  /** The checks after the loop: `messages` is required and a missing
      `model` member is appended. */
  method FinishBuild(st: BuildState, model: bytes) returns (r: Option<bytes>)
    ensures r == FinishBody(st, model)
  {
    if !st.sawMessages {
      return None;
    }
    var out := st.out;
    if !st.sawModel {
      if st.wroteAny {
        out := out + ",";
      }
      var sep := out;
      assert sep == st.out + (if st.wroteAny then "," else []);
      out := out + "\"model\":";
      out := AppendJsonStringQuoted(out, model);
      assert out == sep + ModelMember(model);
    }
    r := Some(out + "}");
  }
}
