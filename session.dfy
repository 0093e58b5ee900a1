/** Session classification and the sticky-routing prompt prefix
    (`src/routing/session.rs`). Both read top-level members of the request
    body with the JSON scanner and never parse the whole document. */
module Session {
  import opened Wrappers
  import opened Bytes
  import opened Ints
  import opened JsonScan

  datatype SessionClass = Portable | Anchored

  const ROUTE_STICKY_PREFIX_MAX_BYTES: nat := 256

  /** `trim_and_cap_prefix`: drop leading JSON whitespace, then keep at most
      256 bytes. */
  function TrimAndCapPrefix(token: bytes): (r: bytes)
    ensures |r| <= ROUTE_STICKY_PREFIX_MAX_BYTES
    ensures |r| > 0 ==> !IsJsonWs(r[0])
    ensures r <= token[WsEnd(token, 0)..]
    ensures |r| < ROUTE_STICKY_PREFIX_MAX_BYTES ==> r == token[WsEnd(token, 0)..]
  {
    var start := WsEnd(token, 0);
    var end := Min(start + ROUTE_STICKY_PREFIX_MAX_BYTES, |token|);
    token[start..end]
  }

  /** The value bytes of the last top-level member named `field`, when the
      body is an object that has one. */
  function FieldToken(body: bytes, field: bytes): Option<bytes> {
    match TopLevelFieldRange(body, field)
    case Some(Some(range)) => Slice(body, range)
    case _ => None
  }

  /** The token of the first field of `fields` that is present. */
  function FirstFieldToken(body: bytes, fields: seq<bytes>): (r: Option<bytes>)
    ensures r.None? <==> forall k | 0 <= k < |fields| :: FieldToken(body, fields[k]).None?
    ensures r.Some? ==> exists k | 0 <= k < |fields| ::
      FieldToken(body, fields[k]) == r && forall j | 0 <= j < k :: FieldToken(body, fields[j]).None?
  {
    if |fields| == 0 then None
    else match FieldToken(body, fields[0])
      case Some(t) => Some(t)
      case None =>
        var r := FirstFieldToken(body, fields[1..]);
        assert forall k | 1 <= k < |fields| :: fields[k] == fields[1..][k - 1];
        r
  }

  const PROMPT_FIELDS: seq<bytes> := ["input", "messages", "contents", "prompt"]

  /** `route_prompt_prefix_bytes`: the messages range found by the probe
      when it lies inside the body, else the first of `input`, `messages`,
      `contents`, `prompt` present at top level, else the head of the body;
      in every case trimmed and capped. */
  function RoutePromptPrefixBytes(body: bytes, messagesRange: Option<(nat, nat)>): (r: bytes)
    ensures |r| <= ROUTE_STICKY_PREFIX_MAX_BYTES
    ensures |r| > 0 ==> !IsJsonWs(r[0])
    ensures messagesRange.Some? && Slice(body, messagesRange.value).Some? ==>
              r == TrimAndCapPrefix(Slice(body, messagesRange.value).value)
    ensures (messagesRange.None? || Slice(body, messagesRange.value).None?) ==>
              match FirstFieldToken(body, PROMPT_FIELDS)
              case Some(t) => r == TrimAndCapPrefix(t)
              case None => r == TrimAndCapPrefix(body[..Min(|body|, ROUTE_STICKY_PREFIX_MAX_BYTES)])
  {
    var fromRange := if messagesRange.Some? then Slice(body, messagesRange.value) else None;
    match fromRange
    case Some(token) => TrimAndCapPrefix(token)
    case None =>
      match FirstFieldToken(body, PROMPT_FIELDS)
      case Some(token) => TrimAndCapPrefix(token)
      case None =>
        if |body| <= ROUTE_STICKY_PREFIX_MAX_BYTES then assert body[..|body|] == body; TrimAndCapPrefix(body)
        else TrimAndCapPrefix(body[..ROUTE_STICKY_PREFIX_MAX_BYTES])
  }

  /** `top_level_field_non_null`: the member is present and its value is not
      `null` in any letter case. */
  function TopLevelFieldNonNull(body: bytes, field: bytes): (r: bool)
    ensures r <==> FieldToken(body, field).Some? && Lower(FieldToken(body, field).value) != "null"
  {
    match FieldToken(body, field)
    case Some(token) =>
      assert EqIgnoreCase(token, "null") <==> Lower(token) == Lower("null");
      assert Lower("null") == "null";
      !EqIgnoreCase(token, "null")
    case None => false
  }

  function AnyNonNull(body: bytes, fields: seq<bytes>): (r: bool)
    ensures r <==> exists k | 0 <= k < |fields| :: TopLevelFieldNonNull(body, fields[k])
  {
    if |fields| == 0 then false
    else
      assert forall k | 1 <= k < |fields| :: fields[k] == fields[1..][k - 1];
      TopLevelFieldNonNull(body, fields[0]) || AnyNonNull(body, fields[1..])
  }

  const ANCHOR_FIELDS: seq<bytes> := ["previous_response_id", "thread_id", "session_id", "conversation_id"]

  /** `classify_session_class`: a request that names a previous response,
      thread, session or conversation is anchored to its provider; every
      other request (with or without a transcript) is portable. */
  function ClassifySessionClass(body: bytes, hasMessagesRange: bool): (c: SessionClass)
    ensures c == Anchored <==> exists k | 0 <= k < |ANCHOR_FIELDS| :: TopLevelFieldNonNull(body, ANCHOR_FIELDS[k])
  {
    if AnyNonNull(body, ANCHOR_FIELDS) then Anchored
    else if hasMessagesRange || TopLevelFieldNonNull(body, "messages") || TopLevelFieldNonNull(body, "input")
            || TopLevelFieldNonNull(body, "contents") then Portable
    else Portable
  }

  /** The probe's range only matters for the prefix, never for the class. */
  lemma ClassIgnoresMessagesRange(body: bytes)
    ensures ClassifySessionClass(body, true) == ClassifySessionClass(body, false)
  {
  }

  lemma NoFieldOutsideObject(body: bytes, field: bytes)
    requires WsEnd(body, 0) >= |body| || body[WsEnd(body, 0)] != '{'
    ensures FieldToken(body, field).None?
  {
    FieldRangeNeedsObject(body, field);
  }

  lemma {:induction false} NoNonNullOutsideObject(body: bytes, fields: seq<bytes>)
    requires WsEnd(body, 0) >= |body| || body[WsEnd(body, 0)] != '{'
    ensures !AnyNonNull(body, fields)
    decreases |fields|
  {
    if |fields| > 0 {
      NoFieldOutsideObject(body, fields[0]);
      NoNonNullOutsideObject(body, fields[1..]);
    }
  }

  lemma {:induction false} NoFirstFieldOutsideObject(body: bytes, fields: seq<bytes>)
    requires WsEnd(body, 0) >= |body| || body[WsEnd(body, 0)] != '{'
    ensures FirstFieldToken(body, fields).None?
    decreases |fields|
  {
    if |fields| > 0 {
      NoFieldOutsideObject(body, fields[0]);
      NoFirstFieldOutsideObject(body, fields[1..]);
    }
  }

  /** A body that is not a JSON object has no members, so it is portable. */
  lemma NonObjectIsPortable(body: bytes, hasMessagesRange: bool)
    requires WsEnd(body, 0) >= |body| || body[WsEnd(body, 0)] != '{'
    ensures ClassifySessionClass(body, hasMessagesRange) == Portable
  {
    NoNonNullOutsideObject(body, ANCHOR_FIELDS);
  }

  /** Without a usable range, the prefix of a body that is not a JSON object
      is its own trimmed head. */
  lemma NonObjectPrefix(body: bytes)
    requires WsEnd(body, 0) >= |body| || body[WsEnd(body, 0)] != '{'
    ensures RoutePromptPrefixBytes(body, None) == TrimAndCapPrefix(body[..Min(|body|, ROUTE_STICKY_PREFIX_MAX_BYTES)])
  {
    NoFirstFieldOutsideObject(body, PROMPT_FIELDS);
  }
}
