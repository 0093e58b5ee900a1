/** Retrying a function call the model got wrong (`src/fc/retry.rs`): when
    to retry, the prompt that asks for a corrected call, the conversation
    it is sent with, and the per-request attempt counter. */
module FcRetry {
  import opened Wrappers
  import opened Bytes
  import opened Ints
  import opened Canonical
  import C = Config

  const ERROR_DETAILS: bytes := "{error_details}"
  const ORIGINAL_RESPONSE: bytes := "{original_response}"

  /** The built-in retry prompt (`DEFAULT_RETRY_TEMPLATE`), written as the
      text before `{original_response}`, between the two placeholders, and
      after `{error_details}`; each is spelled in short pieces. */
  const RETRY_HEAD: bytes :=
    "Your previous response " + "attempted to make a function " + "call but the format was "
    + "invalid or could not be " + "parsed.\n\n**Your original " + "response:**\n```\n"
  const RETRY_MID: bytes :=
    "\n```\n\n**Error details:**\n"
  const RETRY_ASK: bytes :=
    "\n\n**Instructions:**\nPlease " + "retry and output the function "
    + "call in the correct XML " + "format. Remember:\n1. Start " + "with the trigger signal on "
  const RETRY_RULES: bytes :=
    "its own line\n2. Immediately " + "follow with the "
    + "<function_calls> XML block\n3. " + "Use <args_json> with valid " + "JSON for parameters\n4. Do not "
  const RETRY_CLOSE: bytes :=
    "add any text after " + "</function_calls>\n\nPlease "
    + "provide the corrected " + "function call now. DO NOT " + "OUTPUT ANYTHING ELSE."
  const RETRY_TAIL: bytes := RETRY_ASK + RETRY_RULES + RETRY_CLOSE
  const DEFAULT_RETRY_TEMPLATE: bytes :=
    RETRY_HEAD + ORIGINAL_RESPONSE + RETRY_MID + ERROR_DETAILS + RETRY_TAIL

  /** `should_retry`: retries are enabled, the budget is not spent, the
      trigger signal was seen and the call did not parse. */
  function ShouldRetry(features: C.FeaturesConfig, attempt: u32, hasTrigger: bool, parseError: bool): (r: bool)
    ensures r ==> attempt < features.fcErrorRetryMaxAttempts
    ensures !features.enableFcErrorRetry || !hasTrigger || !parseError ==> !r
    ensures features.enableFcErrorRetry && hasTrigger && parseError ==> (r <==> attempt < features.fcErrorRetryMaxAttempts)
  {
    features.enableFcErrorRetry && attempt < features.fcErrorRetryMaxAttempts && hasTrigger && parseError
  }

  /** With a budget of zero attempts nothing is ever retried. */
  lemma ZeroBudgetNeverRetries(features: C.FeaturesConfig, attempt: u32, hasTrigger: bool, parseError: bool)
    requires features.fcErrorRetryMaxAttempts == 0
    ensures !ShouldRetry(features, attempt, hasTrigger, parseError)
  {
  }

  /** `build_retry_prompt`: the custom template (or the built-in one) with
      `{error_details}` replaced first and `{original_response}` second. */
  function BuildRetryPrompt(errorDetails: bytes, originalResponse: bytes, customTemplate: Option<bytes>): (r: bytes)
    ensures !Contains(customTemplate.GetOr(DEFAULT_RETRY_TEMPLATE), ERROR_DETAILS)
            && !Contains(customTemplate.GetOr(DEFAULT_RETRY_TEMPLATE), ORIGINAL_RESPONSE)
            ==> r == customTemplate.GetOr(DEFAULT_RETRY_TEMPLATE)
  {
    var template := customTemplate.GetOr(DEFAULT_RETRY_TEMPLATE);
    ReplaceAll(ReplaceAll(template, ERROR_DETAILS, errorDetails), ORIGINAL_RESPONSE, originalResponse)
  }

  /** Any template that asks for the original response gets it: the
      response is substituted last, and no `{error_details}` overlaps a
      `{original_response}`. */
  lemma PromptCarriesOriginalResponse(errorDetails: bytes, originalResponse: bytes, template: bytes)
    requires Contains(template, ORIGINAL_RESPONSE)
    ensures Contains(BuildRetryPrompt(errorDetails, originalResponse, Some(template)), originalResponse)
  {
    ContainsIff(template, ORIGINAL_RESPONSE);
    var k: nat :| MatchAt(template, ORIGINAL_RESPONSE, k);
    forall m: nat | MatchAt(template, ERROR_DETAILS, m)
      ensures m + |ERROR_DETAILS| <= k || k + |ORIGINAL_RESPONSE| <= m
    {
      PlaceholdersDisjoint(template, m, k);
    }
    ReplaceAllKeeps(template, ERROR_DETAILS, errorDetails, ORIGINAL_RESPONSE, k);
    ReplaceAllInsertsReplacement(ReplaceAll(template, ERROR_DETAILS, errorDetails), ORIGINAL_RESPONSE, originalResponse);
  }

  /** The built-in template asks for the original response, so every
      default prompt carries it. */
  lemma DefaultPromptCarriesOriginalResponse(errorDetails: bytes, originalResponse: bytes)
    ensures Contains(BuildRetryPrompt(errorDetails, originalResponse, None), originalResponse)
  {
    var t := DEFAULT_RETRY_TEMPLATE;
    assert t == RETRY_HEAD + (ORIGINAL_RESPONSE + (RETRY_MID + ERROR_DETAILS + RETRY_TAIL));
    assert t[|RETRY_HEAD|..|RETRY_HEAD| + |ORIGINAL_RESPONSE|] == ORIGINAL_RESPONSE;
    assert MatchAt(t, ORIGINAL_RESPONSE, |RETRY_HEAD|);
    ContainsIff(t, ORIGINAL_RESPONSE);
    PromptCarriesOriginalResponse(errorDetails, originalResponse, t);
  }

  /** The built-in prompt is the template with both placeholders filled in,
      provided the error details do not themselves spell
      `{original_response}` (see `ErrorDetailsAreSubstitutedAgain`). */
  lemma DefaultPromptSubstitutes(errorDetails: bytes, originalResponse: bytes)
    requires !Contains(errorDetails, ORIGINAL_RESPONSE)
    ensures BuildRetryPrompt(errorDetails, originalResponse, None)
            == RETRY_HEAD + originalResponse + RETRY_MID + errorDetails + RETRY_TAIL
  {
    RetryTextBraceFree();
    var step := FillErrorDetails(RETRY_HEAD, RETRY_MID, RETRY_TAIL, errorDetails, DEFAULT_RETRY_TEMPLATE);
    FillOriginalResponse(RETRY_HEAD, RETRY_MID, RETRY_TAIL, errorDetails, originalResponse, step);
  }

  /** The first replacement on a template `head {original_response} mid
      {error_details} tail` with no other braces puts the error details in
      place of `{error_details}` and changes nothing else. */
  lemma FillErrorDetails(head: bytes, mid: bytes, tail: bytes, e: bytes, template: bytes) returns (step: bytes)
    requires NoBrace(head) && NoBrace(mid) && NoBrace(tail)
    requires template == head + ORIGINAL_RESPONSE + mid + ERROR_DETAILS + tail
    ensures step == ReplaceAll(template, ERROR_DETAILS, e)
    ensures step == head + ORIGINAL_RESPONSE + mid + e + tail
  {
    step := ReplaceAll(template, ERROR_DETAILS, e);
    var a := head + ORIGINAL_RESPONSE + mid;
    var b := ERROR_DETAILS + tail;
    SplitFive(head, ORIGINAL_RESPONSE, mid, ERROR_DETAILS, tail, template);
    NoErrorDetailsBefore(head, mid, a, b, template);
    ReplaceAllPrefix(a, b, template, ERROR_DETAILS, e);
    ReplaceAllHead(ERROR_DETAILS, tail, e);
    NoBraceNoPlaceholder(tail, ERROR_DETAILS);
    SplitFive(head, ORIGINAL_RESPONSE, mid, e, tail, a + (e + tail));
  }

  lemma SplitFive(v: bytes, w: bytes, x: bytes, y: bytes, z: bytes, s: bytes)
    requires s == v + w + x + y + z
    ensures s == (v + w + x) + (y + z)
    ensures s == v + (w + (x + y + z))
  {
  }

  /** No `{error_details}` starts before the template's own. */
  lemma NoErrorDetailsBefore(head: bytes, mid: bytes, a: bytes, b: bytes, s: bytes)
    requires NoBrace(head) && NoBrace(mid)
    requires a == head + ORIGINAL_RESPONSE + mid && s == a + b
    ensures forall k: nat | k < |a| :: !MatchAt(s, ERROR_DETAILS, k)
  {
    var h := |head|;
    var w := |ORIGINAL_RESPONSE|;
    forall k: nat | k < |a| ensures !MatchAt(s, ERROR_DETAILS, k) {
      assert s[k] == a[k];
      assert k < h ==> a[k] == head[k];
      assert h < k < h + w ==> a[k] == ORIGINAL_RESPONSE[k - h];
      assert h + w <= k ==> a[k] == mid[k - h - w];
      assert s[h + 1] == 'o';
      assert s[k] != '{' || s[k + 1] != 'e';
      assert k + |ERROR_DETAILS| <= |s| ==> s[k..k + |ERROR_DETAILS|][0] == s[k] && s[k..k + |ERROR_DETAILS|][1] == s[k + 1];
    }
  }

  /** The second replacement then fills `{original_response}`, provided the
      error details do not spell it. */
  lemma FillOriginalResponse(head: bytes, mid: bytes, tail: bytes, e: bytes, o: bytes, step: bytes)
    requires NoBrace(head) && NoBrace(mid) && NoBrace(tail) && |tail| > 0 && tail[0] == '\n'
    requires !Contains(e, ORIGINAL_RESPONSE)
    requires step == head + ORIGINAL_RESPONSE + mid + e + tail
    ensures ReplaceAll(step, ORIGINAL_RESPONSE, o) == head + o + mid + e + tail
  {
    var rest := mid + e + tail;
    var b := ORIGINAL_RESPONSE + rest;
    SplitFive(head, ORIGINAL_RESPONSE, mid, e, tail, step);
    assert step == head + b;
    BraceFreePrefix(head, b, step, ORIGINAL_RESPONSE);
    ReplaceAllPrefix(head, b, step, ORIGINAL_RESPONSE, o);
    ReplaceAllHead(ORIGINAL_RESPONSE, rest, o);
    NoOriginalResponseAfter(mid, e, tail);
    JoinFive(ReplaceAll(step, ORIGINAL_RESPONSE, o), head, ReplaceAll(b, ORIGINAL_RESPONSE, o), o,
             ReplaceAll(rest, ORIGINAL_RESPONSE, o), mid, e, tail);
  }

  lemma JoinFive(u: bytes, head: bytes, v: bytes, o: bytes, w: bytes, mid: bytes, e: bytes, tail: bytes)
    requires u == head + v && v == o + w && w == mid + e + tail
    ensures u == head + o + mid + e + tail
  {
  }

  /** No placeholder starts inside a brace-free prefix. */
  lemma BraceFreePrefix(a: bytes, b: bytes, s: bytes, pat: bytes)
    requires NoBrace(a) && s == a + b && |pat| > 0 && pat[0] == '{'
    ensures forall k: nat | k < |a| :: !MatchAt(s, pat, k)
  {
    forall k: nat | k < |a| ensures !MatchAt(s, pat, k) {
      assert s[k] == a[k];
      assert k + |pat| <= |s| ==> s[k..k + |pat|][0] == s[k];
    }
  }

  /** After the first replacement, `{original_response}` occurs nowhere
      past the head's placeholder unless the error details spell it. */
  lemma NoOriginalResponseAfter(mid: bytes, e: bytes, tail: bytes)
    requires NoBrace(mid) && NoBrace(tail) && |tail| > 0 && tail[0] == '\n'
    requires !Contains(e, ORIGINAL_RESPONSE)
    ensures !Contains(mid + e + tail, ORIGINAL_RESPONSE)
  {
    var s := mid + e + tail;
    var p := ORIGINAL_RESPONSE;
    var lo := |mid|;
    var hi := |mid| + |e|;
    assert s[hi] == '\n';
    forall k: nat ensures !MatchAt(s, p, k) {
      assert k + |p| <= |s| ==> s[k..k + |p|][0] == s[k];
      assert k < lo ==> s[k] == mid[k];
      assert hi <= k < |s| ==> s[k] == tail[k - hi];
      assert lo <= k && k + |p| <= hi ==> s[k..k + |p|] == e[k - lo..k - lo + |p|];
      assert lo <= k && k + |p| <= hi ==> !MatchAt(e, p, k - lo);
      assert k < hi < k + |p| <= |s| ==> s[k..k + |p|][hi - k] == s[hi];
    }
  }

  predicate NoBrace(s: bytes) { forall i | 0 <= i < |s| :: s[i] != '{' }

  /** The built-in template has no braces outside its two placeholders. */
  lemma RetryTextBraceFree()
    ensures NoBrace(RETRY_HEAD) && NoBrace(RETRY_MID) && NoBrace(RETRY_TAIL)
  {
    RetryHeadBraceFree();
    RetryTailBraceFree();
  }

  lemma RetryHeadBraceFree()
    ensures NoBrace(RETRY_HEAD)
  {
    assert NoBrace("Your previous response ");
    assert NoBrace("attempted to make a function ");
    assert NoBrace("call but the format was ");
    assert NoBrace("invalid or could not be ");
    assert NoBrace("parsed.\n\n**Your original ");
    assert NoBrace("response:**\n```\n");
  }

  lemma RetryTailBraceFree()
    ensures NoBrace(RETRY_TAIL)
  {
    RetryAskBraceFree();
    RetryRulesBraceFree();
    RetryCloseBraceFree();
    NoBraceConcat(RETRY_ASK, RETRY_RULES);
    NoBraceConcat(RETRY_ASK + RETRY_RULES, RETRY_CLOSE);
  }

  lemma RetryAskBraceFree()
    ensures NoBrace(RETRY_ASK)
  {
    var t := "\n\n**Instructions:**\nPlease ";
    assert NoBrace(t);
    NoBraceConcat(t, "retry and output the function ");
    t := t + "retry and output the function ";
    NoBraceConcat(t, "call in the correct XML ");
    t := t + "call in the correct XML ";
    NoBraceConcat(t, "format. Remember:\n1. Start ");
    t := t + "format. Remember:\n1. Start ";
    NoBraceConcat(t, "with the trigger signal on ");
    t := t + "with the trigger signal on ";
    assert t == RETRY_ASK;
  }

  lemma RetryRulesBraceFree()
    ensures NoBrace(RETRY_RULES)
  {
    var t := "its own line\n2. Immediately ";
    assert NoBrace(t);
    NoBraceConcat(t, "follow with the ");
    t := t + "follow with the ";
    NoBraceConcat(t, "<function_calls> XML block\n3. ");
    t := t + "<function_calls> XML block\n3. ";
    NoBraceConcat(t, "Use <args_json> with valid ");
    t := t + "Use <args_json> with valid ";
    NoBraceConcat(t, "JSON for parameters\n4. Do not ");
    t := t + "JSON for parameters\n4. Do not ";
    assert t == RETRY_RULES;
  }

  lemma RetryCloseBraceFree()
    ensures NoBrace(RETRY_CLOSE)
  {
    var t := "add any text after ";
    assert NoBrace(t);
    NoBraceConcat(t, "</function_calls>\n\nPlease ");
    t := t + "</function_calls>\n\nPlease ";
    NoBraceConcat(t, "provide the corrected ");
    t := t + "provide the corrected ";
    NoBraceConcat(t, "function call now. DO NOT ");
    t := t + "function call now. DO NOT ";
    NoBraceConcat(t, "OUTPUT ANYTHING ELSE.");
    t := t + "OUTPUT ANYTHING ELSE.";
    assert t == RETRY_CLOSE;
  }

  lemma NoBraceConcat(a: bytes, b: bytes)
    requires NoBrace(a) && NoBrace(b)
    ensures NoBrace(a + b)
  {
  }

  /** A placeholder starts with `{`, so brace-free text holds none. */
  lemma NoBraceNoPlaceholder(s: bytes, p: bytes)
    requires NoBrace(s) && |p| > 0 && p[0] == '{'
    ensures !Contains(s, p)
  {
    forall k: nat ensures !MatchAt(s, p, k) {
      assert k + |p| <= |s| ==> s[k..k + |p|][0] == s[k];
    }
  }

  /** An `{error_details}` and an `{original_response}` never overlap: each
      has its only `{` at its start, and they differ in the next byte. */
  lemma PlaceholdersDisjoint(s: bytes, m: nat, k: nat)
    requires MatchAt(s, ERROR_DETAILS, m) && MatchAt(s, ORIGINAL_RESPONSE, k)
    ensures m + |ERROR_DETAILS| <= k || k + |ORIGINAL_RESPONSE| <= m
  {
    assert s[m] == '{' && s[k] == '{';
    assert s[m + 1] == 'e' && s[k + 1] == 'o';
    forall x | m < x < m + |ERROR_DETAILS| ensures s[x] != '{' {
      assert s[x] == s[m..m + |ERROR_DETAILS|][x - m];
    }
    forall x | k < x < k + |ORIGINAL_RESPONSE| ensures s[x] != '{' {
      assert s[x] == s[k..k + |ORIGINAL_RESPONSE|][x - k];
    }
  }

  /** The two replacements are applied in sequence, so error details that
      themselves spell `{original_response}` are substituted a second time:
      the original response then appears even where the template does not
      ask for it. */
  lemma ErrorDetailsAreSubstitutedAgain(errorDetails: bytes, originalResponse: bytes, template: bytes)
    requires Contains(template, ERROR_DETAILS) && Contains(errorDetails, ORIGINAL_RESPONSE)
    ensures Contains(BuildRetryPrompt(errorDetails, originalResponse, Some(template)), originalResponse)
  {
    var step := ReplaceAll(template, ERROR_DETAILS, errorDetails);
    ReplaceAllInsertsReplacement(template, ERROR_DETAILS, errorDetails);
    ContainsTrans(step, errorDetails, ORIGINAL_RESPONSE);
    ReplaceAllInsertsReplacement(step, ORIGINAL_RESPONSE, originalResponse);
  }

  function TextMessage(role: Role, text: bytes): Message {
    Message(role, [Text(text)], None, None, None)
  }

  /** `build_retry_messages`: the original conversation, then the failed
      answer as an assistant turn, then the retry prompt as a user turn. */
  function BuildRetryMessages(original: seq<Message>, assistantResponse: bytes, retryPrompt: bytes): (r: seq<Message>)
    ensures |r| == |original| + 2
    ensures r[..|original|] == original
    ensures r[|original|].role == Assistant && r[|original|].parts == [Text(assistantResponse)]
    ensures r[|original| + 1].role == User && r[|original| + 1].parts == [Text(retryPrompt)]
  {
    original + [TextMessage(Assistant, assistantResponse), TextMessage(User, retryPrompt)]
  }

  /** Retrying twice keeps the whole first retry conversation as a prefix:
      each round only appends. */
  lemma RetryRoundsOnlyAppend(original: seq<Message>, a1: bytes, p1: bytes, a2: bytes, p2: bytes)
    ensures var once := BuildRetryMessages(original, a1, p1);
            var twice := BuildRetryMessages(once, a2, p2);
            |twice| == |original| + 4 && twice[..|original|] == original && twice[..|once|] == once
  {
    var once := BuildRetryMessages(original, a1, p1);
    var twice := BuildRetryMessages(once, a2, p2);
    assert twice[..|original|] == once[..|original|];
  }

  /** `RetryContext`: the attempt counter of one request's retry loop. */
  class RetryContext {
    var maxAttempts: u32
    var currentAttempt: u32
    var enableRetry: bool
    var retryTemplate: Option<bytes>

    /** `RetryContext::new`: from the feature flags, at attempt zero. */
    constructor (features: C.FeaturesConfig)
      ensures maxAttempts == features.fcErrorRetryMaxAttempts && currentAttempt == 0
      ensures enableRetry == features.enableFcErrorRetry
      ensures retryTemplate == features.fcErrorRetryPromptTemplate
    {
      maxAttempts := features.fcErrorRetryMaxAttempts;
      currentAttempt := 0;
      enableRetry := features.enableFcErrorRetry;
      retryTemplate := features.fcErrorRetryPromptTemplate;
    }

    /** Carries the retry switch and budget of `features`. */
    predicate From(features: C.FeaturesConfig)
      reads this
    {
      maxAttempts == features.fcErrorRetryMaxAttempts && enableRetry == features.enableFcErrorRetry
    }

    /** `should_continue`: the same four conditions as `ShouldRetry`, on the
        context's own counter. */
    function ShouldContinue(hasTrigger: bool, parseFailed: bool): (r: bool)
      reads this
      ensures r ==> currentAttempt < maxAttempts
      ensures forall f: C.FeaturesConfig | From(f) :: r == ShouldRetry(f, currentAttempt, hasTrigger, parseFailed)
    {
      enableRetry && currentAttempt < maxAttempts && hasTrigger && parseFailed
    }

    /** `increment`: one more attempt; `u32` addition wraps as a release
        build performs it. */
    method Increment()
      modifies this
      ensures currentAttempt == (old(currentAttempt) + 1) % U32_LIMIT
      ensures maxAttempts == old(maxAttempts) && enableRetry == old(enableRetry)
      ensures retryTemplate == old(retryTemplate)
      ensures old(currentAttempt) < old(maxAttempts) ==> currentAttempt == old(currentAttempt) + 1 <= maxAttempts
    {
      currentAttempt := (currentAttempt + 1) % U32_LIMIT;
    }
  }
}
