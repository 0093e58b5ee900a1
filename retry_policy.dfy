/** When an upstream failure is retried and how long the gateway waits
    first (`src/transport/retry_policy.rs`). Delays are in milliseconds. */
module RetryPolicy {
  import opened Wrappers
  import opened Bytes
  import opened Ints
  import Util

  const RETRY_MAX_ATTEMPTS: nat := 2
  const RETRY_BACKOFF_BASE_MS: u64 := 100
  const RETRY_BACKOFF_MAX_MS: u64 := 1000
  const RETRY_AFTER_MAX_SECS: nat := 30
  const RETRY_TRANSPORT_FAST_SECOND_MS: nat := 10

  /** Too Many Requests, Service Unavailable and the non-standard 529
      (overloaded) are worth another attempt; nothing else is. */
  function ShouldRetryUpstreamStatus(status: u16): (r: bool)
    ensures r <==> status == 429 || status == 503 || status == 529
  {
    status in {429, 503, 529}
  }

  // ------------------------------------------------------------------
  // Case-insensitive substring search

  /** Some window of `haystack` at or after `i` matches `needle`. */
  function WindowMatchFrom(haystack: bytes, needle: bytes, i: nat): bool
    decreases |haystack| - i
  {
    if i + |needle| > |haystack| then false
    else EqIgnoreCase(haystack[i..i + |needle|], needle) || WindowMatchFrom(haystack, needle, i + 1)
  }

  /** `contains_ascii_case_insensitive`: true for an empty needle, false
      when the haystack is shorter, else a search over every window. */
  function ContainsAsciiCaseInsensitive(haystack: bytes, needle: bytes): (r: bool)
    ensures |needle| == 0 ==> r
    ensures 0 < |needle| && |haystack| < |needle| ==> !r
  {
    if |needle| == 0 then true
    else if |haystack| < |needle| then false
    else WindowMatchFrom(haystack, needle, 0)
  }

  lemma LowerSlice(s: bytes, i: nat, j: nat)
    requires i <= j <= |s|
    ensures Lower(s)[i..j] == Lower(s[i..j])
  {
  }

  lemma {:induction false} WindowMatchFromIff(haystack: bytes, needle: bytes, i: nat)
    ensures WindowMatchFrom(haystack, needle, i) <==> exists k: nat | i <= k :: MatchAt(Lower(haystack), Lower(needle), k)
    decreases |haystack| - i
  {
    if i + |needle| <= |haystack| {
      WindowMatchFromIff(haystack, needle, i + 1);
      LowerSlice(haystack, i, i + |needle|);
      var w := haystack[i..i + |needle|];
      assert EqIgnoreCase(w, needle) <==> Lower(w) == Lower(needle);
      if MatchAt(Lower(haystack), Lower(needle), i) {
        assert Lower(w) == Lower(needle);
      }
      forall k: nat | i <= k && MatchAt(Lower(haystack), Lower(needle), k)
        ensures k == i || exists k': nat | i + 1 <= k' :: MatchAt(Lower(haystack), Lower(needle), k')
      {
      }
    } else {
      forall k: nat | i <= k
        ensures !MatchAt(Lower(haystack), Lower(needle), k)
      {
      }
    }
  }

  /** The window search is an ordinary substring search after folding
      both sides to lower case. */
  lemma CaseInsensitiveIsLoweredContains(haystack: bytes, needle: bytes)
    ensures ContainsAsciiCaseInsensitive(haystack, needle) <==> Contains(Lower(haystack), Lower(needle))
  {
    ContainsIff(Lower(haystack), Lower(needle));
    if |needle| == 0 {
      assert MatchAt(Lower(haystack), Lower(needle), 0);
    } else if |haystack| < |needle| {
      forall k: nat
        ensures !MatchAt(Lower(haystack), Lower(needle), k)
      {
      }
    } else {
      WindowMatchFromIff(haystack, needle, 0);
    }
  }

  // ------------------------------------------------------------------
  // Transport errors

  const RETRY_NEEDLES: seq<bytes> := ["timed out", "timeout", "connection reset", "connection aborted",
                                      "broken pipe", "http2 error", "connection refused",
                                      "unexpected eof", "stream closed"]

  const FAST_RETRY_NEEDLES: seq<bytes> := ["connection reset", "connection aborted", "broken pipe",
                                           "http2 error", "unexpected eof", "stream closed"]

  /** Some needle occurs in the message, ignoring case. */
  function AnyNeedle(message: bytes, needles: seq<bytes>): (r: bool)
    ensures r <==> exists k | 0 <= k < |needles| :: ContainsAsciiCaseInsensitive(message, needles[k])
  {
    if |needles| == 0 then false
    else ContainsAsciiCaseInsensitive(message, needles[0]) || AnyNeedle(message, needles[1..])
  }

  /** A transport error is retried when its message names a timeout or a
      dropped connection. */
  function ShouldRetryTransportMessage(message: bytes): bool {
    AnyNeedle(message, RETRY_NEEDLES)
  }

  /** A broken connection (but not a timeout or a refusal) is retried at once. */
  function HasFastRetryTransportSignature(message: bytes): bool {
    AnyNeedle(message, FAST_RETRY_NEEDLES)
  }

  /** Every message that takes the fast path is also one that is retried. */
  lemma FastSignatureIsRetried(message: bytes)
    ensures HasFastRetryTransportSignature(message) ==> ShouldRetryTransportMessage(message)
  {
    if HasFastRetryTransportSignature(message) {
      var k :| 0 <= k < |FAST_RETRY_NEEDLES| && ContainsAsciiCaseInsensitive(message, FAST_RETRY_NEEDLES[k]);
      assert FAST_RETRY_NEEDLES[k] == RETRY_NEEDLES[k + 2] || FAST_RETRY_NEEDLES[k] == RETRY_NEEDLES[k + 3];
    }
  }

  // ------------------------------------------------------------------
  // Delays

  lemma PowMonotone(base: nat, a: nat, b: nat)
    requires base >= 1 && a <= b
    ensures Pow(base, a) <= Pow(base, b)
    decreases b
  {
    if a < b {
      PowMonotone(base, a, b - 1);
    }
  }

  /** `retry_backoff_delay`: 100 ms doubled per attempt (the shift capped at
      ten), never more than one second. */
  function RetryBackoffDelay(attempt: u32): (ms: u64)
    ensures attempt == 0 ==> ms == 100
    ensures attempt == 1 ==> ms == 200
    ensures attempt == 2 ==> ms == 400
    ensures attempt == 3 ==> ms == 800
    ensures attempt >= 4 ==> ms == RETRY_BACKOFF_MAX_MS
  {
    var shift := Min(attempt, 10);
    ShiftBounds(shift);
    Min(SaturatingMul(RETRY_BACKOFF_BASE_MS, Pow(2, shift)), RETRY_BACKOFF_MAX_MS) as u64
  }

  lemma ShiftBounds(shift: nat)
    requires shift <= 10
    ensures Pow(2, shift) <= 1024
    ensures shift >= 4 ==> Pow(2, shift) >= 16
  {
    PowMonotone(2, shift, 10);
    assert Pow(2, 10) == 1024;
    if shift >= 4 {
      PowMonotone(2, 4, shift);
      assert Pow(2, 4) == 16;
    }
  }

  /** Later attempts never wait less. */
  lemma BackoffMonotone(a: u32, b: u32)
    requires a <= b
    ensures RetryBackoffDelay(a) <= RetryBackoffDelay(b)
  {
  }

  /** `retry_transport_delay`: a broken connection is retried immediately on
      the first attempt and after 10 ms later on; other errors back off. */
  function RetryTransportDelay(message: bytes, attempt: u32): (ms: nat)
    ensures ms <= RETRY_BACKOFF_MAX_MS
    ensures HasFastRetryTransportSignature(message) ==> ms == (if attempt == 0 then 0 else RETRY_TRANSPORT_FAST_SECOND_MS)
    ensures !HasFastRetryTransportSignature(message) ==> ms == RetryBackoffDelay(attempt)
  {
    if HasFastRetryTransportSignature(message) then
      if attempt == 0 then 0 else RETRY_TRANSPORT_FAST_SECOND_MS
    else RetryBackoffDelay(attempt)
  }

  /** `HeaderValue::to_str` succeeds only on visible ASCII and tabs. */
  predicate VisibleAscii(v: bytes) {
    forall k | 0 <= k < |v| :: (' ' <= v[k] && v[k] as int < 0x7F) || v[k] == '\t'
  }

  /** `parse_retry_after_delay`. A whole number of seconds is honoured up to
      thirty seconds (section 10.2.3 of RFC 9110); any other text is an HTTP
      date, and `dateDelayMs` is what parsing it and comparing it with the
      clock gave (None when it is not a date), capped the same way. */
  function ParseRetryAfterDelay(header: Option<bytes>, dateDelayMs: Option<nat>): (r: Option<nat>)
    ensures r.Some? ==> r.value <= RETRY_AFTER_MAX_SECS * 1000
    ensures header.None? ==> r.None?
    ensures header.Some? && VisibleAscii(header.value) && Util.ParseU64(Trim(header.value)).Some? ==>
              r == Some(Min(Util.ParseU64(Trim(header.value)).value, RETRY_AFTER_MAX_SECS) * 1000)
  {
    match header
    case None => None
    case Some(value) =>
      if !VisibleAscii(value) then None
      else
        var raw := Trim(value);
        if |raw| == 0 then None
        else match Util.ParseU64(raw)
          case Some(seconds) => Some(Min(seconds, RETRY_AFTER_MAX_SECS) * 1000)
          case None =>
            match dateDelayMs
            case None => None
            case Some(d) => Some(Min(d, RETRY_AFTER_MAX_SECS * 1000))
  }

  /** `retry_delay`: the server's Retry-After when it gave a usable one,
      otherwise the backoff. */
  function RetryDelay(header: Option<bytes>, dateDelayMs: Option<nat>, attempt: u32): (ms: nat)
    ensures ms <= RETRY_AFTER_MAX_SECS * 1000
    ensures header.None? ==> ms == RetryBackoffDelay(attempt)
  {
    match ParseRetryAfterDelay(header, dateDelayMs)
    case Some(d) => d
    case None => RetryBackoffDelay(attempt)
  }

  /** A Retry-After written by the gateway's own decimal writer is read back
      as that many seconds, capped at thirty. */
  lemma RetryAfterSecondsRoundTrip(n: u64, dateDelayMs: Option<nat>)
    ensures ParseRetryAfterDelay(Some(Util.Decimal(n)), dateDelayMs) == Some(Min(n, RETRY_AFTER_MAX_SECS) * 1000)
  {
    var d := Util.Decimal(n);
    Util.DecimalRoundTrip(n);
    Util.ParseU64Decimal(n);
    Util.TrimPlain(d);
    assert VisibleAscii(d);
  }
}
