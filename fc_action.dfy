/** What the function-calling layer does with a request (`src/fc/action.rs`):
    skip it, inject tools into the prompt, or pass them natively; and when
    an `auto` upstream's native attempt may fall back to injection. */
module FcActions {
  import opened Bytes
  import opened Errors
  import opened Ints
  import C = Config

  datatype FcAction = Inject | Native | Skip

  /** `get_fc_mode`: no tools means nothing to do; otherwise the upstream's
      mode decides, and `auto` starts natively. */
  function GetFcMode(upstream: C.UpstreamServiceConfig, hasTools: bool): (r: FcAction)
    ensures r == Skip <==> !hasTools
    ensures r == Inject <==> hasTools && upstream.fcMode == C.Inject
  {
    if !hasTools then Skip
    else match upstream.fcMode
      case Inject => Inject
      case Native => Native
      case Auto => Native
  }

  /** `decide_fc_action`: as `GetFcMode`, except that with function calling
      disabled in the features, tools always pass through natively. */
  function DecideFcAction(features: C.FeaturesConfig, upstream: C.UpstreamServiceConfig, hasTools: bool): (r: FcAction)
    ensures r == Skip <==> !hasTools
    ensures r == Inject <==> hasTools && features.enableFunctionCalling && upstream.fcMode == C.Inject
    ensures features.enableFunctionCalling ==> r == GetFcMode(upstream, hasTools)
  {
    if !hasTools then Skip
    else if !features.enableFunctionCalling then Native
    else GetFcMode(upstream, true)
  }

  /** `allow_auto_inject_fallback`. */
  function AllowAutoInjectFallback(features: C.FeaturesConfig, upstream: C.UpstreamServiceConfig, hasTools: bool): (r: bool)
    ensures r ==> hasTools && upstream.fcMode == C.Auto
    ensures r <==> features.enableFunctionCalling && upstream.fcMode == C.Auto
                   && DecideFcAction(features, upstream, hasTools) == Native
  {
    hasTools && features.enableFunctionCalling && upstream.fcMode == C.Auto
  }

  /** A fallback to injection is only ever offered after a native attempt:
      whenever it is allowed, the first decision was `Native`. */
  lemma FallbackFollowsNativeAttempt(features: C.FeaturesConfig, upstream: C.UpstreamServiceConfig, hasTools: bool)
    requires AllowAutoInjectFallback(features, upstream, hasTools)
    ensures DecideFcAction(features, upstream, hasTools) == Native
  {
  }

  /** With function calling disabled, no request is ever injected and no
      fallback to injection is offered. */
  lemma DisabledNeverInjects(features: C.FeaturesConfig, upstream: C.UpstreamServiceConfig, hasTools: bool)
    requires !features.enableFunctionCalling
    ensures DecideFcAction(features, upstream, hasTools) != Inject
    ensures !AllowAutoInjectFallback(features, upstream, hasTools)
  {
  }

  // ------------------------------------------------------------------
  // Capability errors

  const TOOL_KEYWORDS: seq<bytes> :=
    ["tool", "tools", "tool_choice", "function call", "function_call", "function calling"]

  const UNSUPPORTED_KEYWORDS: seq<bytes> :=
    ["unsupported", "does not support", "doesn't support", "not support", "not implemented",
     "unrecognized request argument", "unknown field", "unknown parameter", "invalid parameter",
     "not available"]

  /** `keywords.iter().any(|kw| msg.contains(kw))`. */
  function AnyKeyword(msg: bytes, keywords: seq<bytes>): (r: bool)
    ensures r <==> exists k | 0 <= k < |keywords| :: Contains(msg, keywords[k])
  {
    if |keywords| == 0 then false
    else Contains(msg, keywords[0]) || AnyKeyword(msg, keywords[1..])
  }

  /** The statuses with which upstreams reject a request they cannot serve. */
  predicate CapabilityStatus(status: int) { status == 400 || status == 404 || status == 422 || status == 501 }

  /** `should_auto_fallback_to_inject`: an upstream error with a capability
      status whose lower-cased message names tools and says they are not
      supported. */
  function ShouldAutoFallbackToInject(err: CanonicalError): (r: bool)
    ensures r ==> err.Upstream? && CapabilityStatus(err.status)
    ensures err.Upstream? && CapabilityStatus(err.status) ==>
              (r <==> (exists k | 0 <= k < |TOOL_KEYWORDS| :: Contains(Lower(err.message), TOOL_KEYWORDS[k]))
                      && (exists k | 0 <= k < |UNSUPPORTED_KEYWORDS| :: Contains(Lower(err.message), UNSUPPORTED_KEYWORDS[k])))
  {
    match err
    case Upstream(status, message) =>
      if !CapabilityStatus(status) then false
      else
        var msg := Lower(message);
        AnyKeyword(msg, TOOL_KEYWORDS) && AnyKeyword(msg, UNSUPPORTED_KEYWORDS)
    case _ => false
  }

  lemma LowerIdempotent(s: bytes)
    ensures Lower(Lower(s)) == Lower(s)
  {
    var t := Lower(s);
    forall i | 0 <= i < |s| ensures Lower(t)[i] == t[i] {
      assert t[i] == AsciiLower(s[i]);
    }
  }

  /** The decision ignores the case of the upstream's message. */
  lemma FallbackIgnoresCase(status: u16, message: bytes)
    ensures ShouldAutoFallbackToInject(Upstream(status, Lower(message)))
            == ShouldAutoFallbackToInject(Upstream(status, message))
  {
    LowerIdempotent(message);
  }

  /** Any error under a capability status whose message holds, as written,
      one of the tool keywords and one of the unsupported keywords falls
      back; the letters around them may be in any case. */
  lemma KeywordsFallBack(status: u16, message: bytes, i: nat, j: nat)
    requires CapabilityStatus(status as int)
    requires i < |TOOL_KEYWORDS| && j < |UNSUPPORTED_KEYWORDS|
    requires Contains(message, TOOL_KEYWORDS[i]) && Contains(message, UNSUPPORTED_KEYWORDS[j])
    ensures ShouldAutoFallbackToInject(Upstream(status, message))
  {
    ToolKeywordsAreLower();
    UnsupportedKeywordsAreLower();
    ContainsLower(message, TOOL_KEYWORDS[i]);
    ContainsLower(message, UNSUPPORTED_KEYWORDS[j]);
  }

  /** Lower-casing keeps an occurrence. */
  lemma ContainsLower(m: bytes, p: bytes)
    requires Contains(m, p)
    ensures Contains(Lower(m), Lower(p))
  {
    ContainsIff(m, p);
    var k: nat :| MatchAt(m, p, k);
    assert Lower(m)[k..k + |p|] == Lower(p);
    assert MatchAt(Lower(m), Lower(p), k);
    ContainsIff(Lower(m), Lower(p));
  }

  predicate NoUpper(s: bytes) { forall k | 0 <= k < |s| :: !('A' <= s[k] <= 'Z') }

  lemma NoUpperLower(s: bytes)
    requires NoUpper(s)
    ensures Lower(s) == s
  {
  }

  /** The tool keywords are written in lower case. */
  lemma ToolKeywordsAreLower()
    ensures forall i | 0 <= i < |TOOL_KEYWORDS| :: Lower(TOOL_KEYWORDS[i]) == TOOL_KEYWORDS[i]
  {
    forall i | 0 <= i < |TOOL_KEYWORDS| ensures Lower(TOOL_KEYWORDS[i]) == TOOL_KEYWORDS[i] {
      assert NoUpper(TOOL_KEYWORDS[i]);
      NoUpperLower(TOOL_KEYWORDS[i]);
    }
  }

  /** The unsupported keywords are written in lower case. */
  lemma UnsupportedKeywordsAreLower()
    ensures forall j | 0 <= j < |UNSUPPORTED_KEYWORDS| :: Lower(UNSUPPORTED_KEYWORDS[j]) == UNSUPPORTED_KEYWORDS[j]
  {
    var ks := UNSUPPORTED_KEYWORDS;
    UnsupportedNoUpperHead();
    UnsupportedNoUpperMiddle();
    UnsupportedNoUpperTail();
    forall j | 0 <= j < |ks| ensures Lower(ks[j]) == ks[j] {
      NoUpperLower(ks[j]);
    }
  }

  /** The unsupported keywords hold no upper-case letter, checked a few
      at a time. */
  lemma UnsupportedNoUpperHead()
    ensures forall j | 0 <= j < 4 :: NoUpper(UNSUPPORTED_KEYWORDS[j])
  {
  }

  lemma UnsupportedNoUpperMiddle()
    ensures forall j | 4 <= j < 7 :: NoUpper(UNSUPPORTED_KEYWORDS[j])
  {
  }

  lemma UnsupportedNoUpperTail()
    ensures forall j | 7 <= j < 10 :: NoUpper(UNSUPPORTED_KEYWORDS[j])
  {
  }


}
