# toolify-rs gateway core, modelled in Dafny

toolify-rs is an HTTP gateway that accepts OpenAI Chat, OpenAI Responses,
Anthropic Messages and Gemini requests, routes each one to a configured
upstream service, translates between the dialects and, for upstreams without
native tool calling, injects a tool-calling prompt and parses the calls back
out of the model's text.

This project models the parts of the gateway that decide things, one Dafny
module per source file:

- the byte-level JSON scanner that finds top-level members without parsing
  the whole body (`JsonScan`), and the JSON writers in `util.rs` (`Util`);
- model routing: the model index built from the configured services, alias
  groups, the ordered failover list, the session-aware routing policy, the
  sticky-hash inputs and request dispatch by path (`Routing`,
  `RoutingPolicy`, `Session`, `Dispatch`, `Bootstrap`);
- the circuit breakers per upstream and model group, the retry policy and
  request ids (`RouteBreaker`, `RetryPolicy`, `RequestId`);
- error categories, HTTP statuses and error bodies per dialect (`Errors`,
  `ErrorShapes`, `ErrorResponse`), and the role, stop-reason and usage
  mappings between dialects (`Mapping`), with the token estimate that fills
  missing usage (`TokenCounter`);
- the function-calling pipeline: the mode decision and auto-fallback rule
  (`FcActions`, `FcPolicies`), the tool-calling prompt and its cache
  (`FcPrompt`), the request rewrite that turns tool history into text
  (`FcPreprocess`), prompt injection (`FcInject`, and `ResponsesFc` for the
  Responses ingress), the call parser (`FcParser`), argument validation
  against the tool schemas (`Validator`), the turn from parsed calls to a
  response (`FcPostprocess`), the retry prompt and retry counter
  (`FcRetry`), the streaming trigger detector (`Detector`) and the
  streaming tool-call state machine (`FcStream`), and the raw-body
  system-message injection for OpenAI Chat (`RawInject`, with the field
  probe in `Probe`);
- streaming: the SSE line parser, frame parser and encoders (`Sse`,
  `StreamFrame`), the chunk-to-frame buffering of the stream bodies
  (`Streaming`), the transcoder between dialects (`Transcoder`) and the
  Anthropic and Responses stream codecs (`AnthropicStream`,
  `ResponsesStream`);
- the remaining state objects and small infrastructure: the models cache,
  the upstream table, the Gemini call-id binding, client authentication and
  configuration validation (`ModelList`, `PreparedUpstreams`,
  `GeminiDecoder`, `GeminiIngress`, `Auth`, `Validation`).

What each of these modules leaves out of its source file is listed under
"Left out" below.

Byte strings are `seq<byte>`, a byte being written as a `char` so that ASCII literals read as in the source
(the properties proved hold for every `char` sequence, so for byte strings in particular);
Rust's fixed-width integers are subset types (`u16`, `u32`, `u64`); the
wrap-arounds and saturations that decide a result (the retry counter, the
breaker windows, the backoff arithmetic) are written out, and the few
counters that are left unbounded are named under "Left out". Code that loops over a cursor in
the source is a `method` with loop invariants, proved equal to a recursive
specification function about which the properties are proved as lemmas;
objects whose fields are updated in place are classes. The repository's
design notes also describe a performance-regression gate for benchmarks;
no code for it exists in the source, and the model follows the code.

## Model

| member | source | states |
|---|---|---|
| JsonScan.WsEnd | src/json_scan.rs:2-11 | the index returned is at or after the start, inside the text, and not JSON whitespace |
| JsonScan.WsEndSkipsOnlyWs | src/json_scan.rs:2-11 | every byte skipped is space, LF, CR or TAB |
| JsonScan.WsEndIdempotent | src/json_scan.rs:2-11 | skipping whitespace twice is skipping it once |
| JsonScan.SkipWs | src/json_scan.rs:2-11 | the cursor loop stops exactly where `WsEnd` says |
| JsonScan.StringScan | src/json_scan.rs:19-35 | a successful scan ends right after a `"` |
| JsonScan.StringEnd | src/json_scan.rs:14-35 | succeeds only on a `"` at the start, and ends after a closing `"` at least two bytes on |
| JsonScan.StringScanExact | src/json_scan.rs:19-35 | the scan ends at q+1 exactly when the bytes before q are an escaped body (no raw control byte, every `\` consumes the next byte) and q holds `"` |
| JsonScan.StringEndExact | src/json_scan.rs:14-35 | the string ends after the first unescaped quote, and fails on control bytes or a missing quote |
| JsonScan.ParseStringEnd | src/json_scan.rs:14-35 | the imperative scanner returns what `StringEnd` specifies |
| JsonScan.LiteralEnd | src/json_scan.rs:122-130 | a literal is accepted exactly when the whole word is present at the position |
| JsonScan.ConsumeLiteral | src/json_scan.rs:122-130 | the imperative comparison returns what `LiteralEnd` specifies |
| JsonScan.DigitsEnd | src/json_scan.rs:142-151 | the end of the maximal digit run, inside the text |
| JsonScan.DigitsEndAllDigits | src/json_scan.rs:142-151 | every byte of the run is a digit |
| JsonScan.ScanDigits | src/json_scan.rs:142-151 | the digit loop stops where `DigitsEnd` says |
| JsonScan.FractionEnd | src/json_scan.rs:153-161 | a fraction ends inside the text |
| JsonScan.SignEnd | src/json_scan.rs:163-167 | an optional sign is skipped |
| JsonScan.ExponentEnd | src/json_scan.rs:163-174 | an exponent ends inside the text |
| JsonScan.NumberEnd | src/json_scan.rs:132-177 | an accepted number ends after its start and inside the text |
| JsonScan.IntEnd | src/json_scan.rs:142-151 | the integer part is at least one byte |
| JsonScan.FractionToken | src/json_scan.rs:153-161 | an accepted fraction is `.` followed by at least one digit |
| JsonScan.ExponentToken | src/json_scan.rs:163-174 | an accepted exponent is `e`/`E`, an optional sign and at least one digit |
| JsonScan.NumberToken | src/json_scan.rs:132-177 | an accepted number starts with `-` or a digit and is made of an integer part, an optional fraction and an optional exponent |
| JsonScan.NumberDanglingMarkRejected | src/json_scan.rs:153-174 | a `.` or `e` without a digit after it makes the number an error |
| JsonScan.ParseNumberEnd | src/json_scan.rs:132-177 | the imperative number scanner returns what `NumberEnd` specifies |
| JsonScan.ScanFraction | src/json_scan.rs:153-161 | the fraction branch returns what `FractionEnd` specifies |
| JsonScan.ScanExponent | src/json_scan.rs:163-174 | the exponent branch returns what `ExponentEnd` specifies |
| JsonScan.ValueEnd | src/json_scan.rs:38-55 | any accepted value ends after the first non-whitespace byte and inside the text |
| JsonScan.ObjectEnd | src/json_scan.rs:57-91 | an accepted object ends right after a `}` |
| JsonScan.MemberAt | src/json_scan.rs:63-86 | a member starts at its key string, and its value and the next cursor lie inside the text |
| JsonScan.ObjectLoop | src/json_scan.rs:60-90 | the object loop ends right after a `}` |
| JsonScan.ObjectLoopStart | src/json_scan.rs:64-79 | before a member the object loop fails at the end of input, ends at `}`, and fails on anything but a key |
| JsonScan.ObjectLoopStep | src/json_scan.rs:80-88 | after one member the object loop fails, ends at `}` or goes on after the comma, as the separator says |
| JsonScan.ArrayEnd | src/json_scan.rs:93-120 | an accepted array ends right after a `]` |
| JsonScan.ArrayLoop | src/json_scan.rs:96-119 | the array loop ends right after a `]` |
| JsonScan.ValueEndCloses | src/json_scan.rs:38-55 | objects, arrays and strings end exactly after their closing byte |
| JsonScan.LiteralValue | src/json_scan.rs:48-50 | `t`, `f` and `n` start a value only when the whole literal is present |
| JsonScan.ValueEndSkipsWs | src/json_scan.rs:38-41 | leading whitespace does not change where a value ends |
| JsonScan.ParseValueEnd | src/json_scan.rs:38-55 | the dispatching scanner returns what `ValueEnd` specifies |
| JsonScan.ParseMember | src/json_scan.rs:63-86 | one key-colon-value step returns what `MemberAt` specifies |
| JsonScan.MemberAtParts | src/json_scan.rs:198-210 | once key, colon and value are scanned the member is determined, and a bad value means no member |
| JsonScan.ParseObjectEnd | src/json_scan.rs:57-91 | the object loop returns what `ObjectEnd` specifies |
| JsonScan.ArrayLoopStep | src/json_scan.rs:108-117 | after one element the array loop fails, ends at `]` or goes on after the comma, as the separator says |
| JsonScan.ArrayLoopStart | src/json_scan.rs:100-108 | before an element the array loop fails at the end of input, ends at `]`, or fails on a bad value |
| JsonScan.ParseArrayEnd | src/json_scan.rs:93-120 | the array loop returns what `ArrayEnd` specifies |
| JsonScan.MembersFrom | src/json_scan.rs:189-220 | every member found lies inside the text |
| JsonScan.TopLevelMembers | src/json_scan.rs:179-220 | every top-level member lies inside the text |
| JsonScan.MemberAtWellFormed | src/json_scan.rs:189-216 | a found member is a string key followed by a complete value |
| JsonScan.MembersWellFormed | src/json_scan.rs:189-220 | every member of the object is a well-formed key string followed by a complete value |
| JsonScan.MembersInOrder | src/json_scan.rs:189-220 | members appear left to right, each key after the previous value, so nested keys are never members |
| JsonScan.MatchFromIsLast | src/json_scan.rs:189-220 | scanning the members keeps the value of the last one whose key equals the field |
| JsonScan.FieldRangeNeedsObject | src/json_scan.rs:184-186 | the search fails unless the first non-whitespace byte is `{` |
| JsonScan.FieldRangeIsLastMember | src/json_scan.rs:189-220 | a found range is the value of the last top-level member with that key; nested keys never match |
| JsonScan.MembersFromStep | src/json_scan.rs:189-216 | one member and a comma step the member loop forward |
| JsonScan.LoopResultStep | src/json_scan.rs:189-216 | one member step updates the running match |
| JsonScan.LoopResultExit | src/json_scan.rs:190-196 | the search stops with the match so far at `}` and fails on anything but a key |
| JsonScan.TopLevelIsLoop | src/json_scan.rs:183-189 | the search of an object is its member loop entered after the brace |
| JsonScan.FindTopLevelFieldValueRange | src/json_scan.rs:179-221 | the cursor loop returns what `TopLevelFieldRange` specifies |
| Util.EscapeBodyCons | src/util.rs:145-174 | escaping works byte by byte |
| Util.ConcatMapCons | src/util.rs:145-174 | mapping bytes to strings and concatenating distributes over the first byte |
| Util.EscapeBodyPlain | src/util.rs:145-174 | a string with no quote, backslash or control byte is written unchanged |
| Util.UnescapeStep | src/util.rs:145-174 | reading back consumes one escape at a time |
| Util.UnescapeUnicode | src/util.rs:163-168 | a `\u00XX` escape reads back to its byte |
| Util.UnescapeShort | src/util.rs:156-162 | a two-byte escape reads back to its byte |
| Util.UnescapePlain | src/util.rs:169-171 | a raw byte reads back as itself |
| Util.UnescapeByte | src/util.rs:145-174 | every escaped byte reads back |
| Util.UnescapeEscape | src/util.rs:145-174 | escaping round-trips: reading the escaped body gives the original string |
| Util.PushJsonStringEscaped | src/util.rs:145-174 | appends exactly `"` + escaped body + `"` to the buffer |
| Util.DigitByte | src/util.rs:177-192 | a digit value becomes its ASCII digit |
| Util.DigitsFacts | src/util.rs:177-192 | the digits of a positive number have no leading zero and read back to it |
| Util.DecimalRoundTrip | src/util.rs:177-192 | the decimal text is non-empty, has no leading zero (except "0") and reads back to the value |
| Util.DigitsLength | src/util.rs:177-192 | a number below 10^k has at most k digits, so a u64 fits the 20-byte buffer |
| Util.PushU64Decimal | src/util.rs:177-192 | the right-to-left buffer loop appends exactly the decimal text |
| Util.HexFixed | src/util.rs:200-212 | the hex text has exactly the requested width |
| Util.HexFixedValue | src/util.rs:200-212 | the hex digits are lower-case and read back to the value modulo 16^width |
| Util.DivBound | src/util.rs:200-212 | dividing by 16 stays below the next power |
| Util.Hex16RoundTrip | src/util.rs:200-212 | sixteen hex digits read back to the u64 exactly |
| Util.Hex16Injective | src/util.rs:200-212 | distinct u64 values give distinct hex strings |
| Util.PushU64Hex16 | src/util.rs:200-212 | the nibble loop appends exactly the sixteen hex digits |
| Util.FormatRequestSeqHex | src/util.rs:86-91 | the result is the prefix followed by the sixteen hex digits of the sequence number |
| Util.CallIdCounter.constructor | src/util.rs:66-74 | the counter starts at 1 |
| Util.CallIdCounter.NextCallId | src/util.rs:68-74 | the id is "call_" plus the counter in hex, and the counter moves on by one (wrapping at 2^64) |
| Util.CallIdCounter.NextGeneratedId | src/util.rs:76-84 | the id is the prefix, a dash and the counter in hex, and the counter moves on |
| Util.CallIdsDistinct | src/util.rs:68-74 | call ids drawn from different counter values differ |
| Util.ExtractSseDataPayload | src/util.rs:94-123 | blank lines, comments and (when asked) `event:` lines give nothing; on any other line, a `data: ` prefix yields the trimmed rest exactly when it is not `[DONE]`, and otherwise, under the `data:` variant, a `data:` prefix does the same, or, under the bare-JSON variant, the trimmed line itself does |
| Util.TrimIdempotent | src/util.rs:94-123 | trimming twice is trimming once |
| Util.TrimPlain | src/util.rs:94-123 | a text without surrounding whitespace is its own trim |
| Util.DataLinePayload | src/util.rs:94-123 | `data: ` followed by a trimmed payload other than `[DONE]` gives back that payload |
| Util.ParseU64 | src/transport/retry_policy.rs:98-110 | a parsed number comes from a non-empty all-digit text with that decimal value |
| Util.ParseU64Decimal | src/transport/retry_policy.rs:98-110 | the decimal text of a u64 parses back to it |
| Util.SelectSsePayload | src/util.rs:107-115 | the payload is the rest after `data: `; failing that, when allowed, the rest after `data:` (or nothing); failing that, the whole line when bare JSON is allowed, and otherwise nothing |
| Errors.DisplayText | src/error.rs:6-25 | each error's text is its fixed prefix followed by its message |
| Errors.CategoryFromUpstreamStatus | src/error.rs:40-49 | 400, 401, 403 and 429 keep their own category, 500-599 are server errors, all else is unknown (each an if-and-only-if) |
| Errors.Category | src/error.rs:52-65 | upstream errors use their status; auth and invalid-request errors are the client's; every other error is a server error |
| Errors.HttpStatusForCategory | src/error.rs:71-81 | the status is 400/401/403/429 for the client categories and 500 exactly for server and unknown |
| Errors.UpstreamStatusPassThrough | src/error.rs:40-81 | an upstream 400/401/403/429 reaches the client unchanged, every other upstream status becomes 500 |
| Errors.HttpStatusSeparatesClientCategories | src/error.rs:71-81 | two categories share a status only when both are server-side |
| ErrorShapes.OpenAiTypeCodeOneToOne | src/protocol/error_shapes.rs:3-21 | OpenAI type and code identify the category, except that server and unknown share "server_error" |
| ErrorShapes.AnthropicTypeMerges | src/protocol/error_shapes.rs:23-30 | Anthropic's type also merges authentication and permission |
| ErrorShapes.GeminiStatusOneToOne | src/protocol/error_shapes.rs:32-40 | Gemini's status names separate the same categories as OpenAI's types |
| ErrorShapes.OpenAiErrorBody | src/protocol/error_shapes.rs:43-53 | the OpenAI error object carries exactly the given message, type and code and a null param |
| ErrorShapes.OpenAiErrorPayload | src/protocol/error_shapes.rs:43-53 | the body is `{"error": {message, type, code, param: null}}` for the category |
| ErrorShapes.AnthropicErrorPayload | src/protocol/error_shapes.rs:55-64 | the body is `{"type": "error", "error": {type, message}}` |
| ErrorShapes.GeminiErrorBody | src/protocol/error_shapes.rs:66-78 | the Gemini error object carries the status as its code, the message and the status name |
| ErrorShapes.GeminiErrorPayload | src/protocol/error_shapes.rs:66-78 | the body's code is the HTTP status passed in, with the message and status name |
| ErrorResponse.FormatError | src/error.rs:89-104 | the status is the category's, and a Gemini body carries the same code |
| ErrorResponse.FormatErrorStatusIgnoresIngress | src/error.rs:89-104 | the status depends only on the category, and every body carries the error's display text |
| ErrorResponse.OpenAiIngressesAgree | src/error.rs:97-101 | both OpenAI ingresses answer with the same body |
| Mapping.OpenAiRoleToCanonical | src/protocol/mapping.rs:18-25 | "developer" is read as the system role |
| Mapping.CanonicalRoleToOpenAi | src/protocol/mapping.rs:8-15 | every role's OpenAI name reads back to the same role |
| Mapping.AnthropicRoleToCanonical | src/protocol/mapping.rs:37-42 | only assistant and user come out; unknown names are the user |
| Mapping.CanonicalRoleToAnthropic | src/protocol/mapping.rs:28-34 | the assistant round-trips, every other role comes back as user |
| Mapping.GeminiRoleToCanonical | src/protocol/mapping.rs:54-60 | no Gemini name reads as the system role |
| Mapping.CanonicalRoleToGemini | src/protocol/mapping.rs:45-51 | every role but system round-trips; system comes back as user |
| Mapping.CanonicalStopToOpenAi | src/protocol/mapping.rs:67-84 | every stop reason round-trips through OpenAI |
| Mapping.AnthropicStopToCanonical | src/protocol/mapping.rs:96-102 | Anthropic never yields content-filter |
| Mapping.CanonicalStopToAnthropic | src/protocol/mapping.rs:87-102 | every reason round-trips except content-filter, which comes back as end of turn |
| Mapping.GeminiStopToCanonical | src/protocol/mapping.rs:114-120 | Gemini never yields tool calls |
| Mapping.CanonicalStopToGemini | src/protocol/mapping.rs:105-120 | every reason round-trips except tool calls, which come back as end of turn |
| Mapping.RoleDecodersInvertEncoders | src/protocol/mapping.rs:8-60 | a decoder gives something other than its fallback only for that role's own name (or "developer") |
| Mapping.StopDecodersInvertEncoders | src/protocol/mapping.rs:67-120 | a decoder gives something other than end of turn only for that reason's own name (or RECITATION) |
| Mapping.StopEncodersInjective | src/protocol/mapping.rs:67-120 | each encoder keeps apart the reasons its dialect distinguishes |
| Mapping.ReadUsage3 | src/protocol/mapping.rs:138-147 | a count is read only from a u64 member of that name; an empty object reads as no counts |
| Mapping.ZeroFilled | src/protocol/mapping.rs:128-136 | every count is present, and a complete usage is unchanged |
| Mapping.CanonicalUsageToOpenAi | src/protocol/mapping.rs:128-147 | the OpenAI usage object reads back as the usage with missing counts written as 0 |
| Mapping.ReadUsageObject3 | src/protocol/mapping.rs:128-147 | a three-counter object with distinct names reads back as the zero-filled usage |
| Mapping.OpenAiUsageToCanonical | src/protocol/mapping.rs:138-147 | each count comes from its own member |
| Mapping.CanonicalUsageToGemini | src/protocol/mapping.rs:174-196 | the Gemini usage object reads back as the usage with missing counts written as 0 |
| Mapping.GeminiUsageToCanonical | src/protocol/mapping.rs:184-196 | each count comes from its own member |
| Mapping.CanonicalUsageToAnthropic | src/protocol/mapping.rs:150-156 | the Anthropic usage object has exactly two members |
| Mapping.AnthropicUsageToCanonical | src/protocol/mapping.rs:159-170 | the total is present exactly when both counts are, and is their sum |
| Mapping.AnthropicUsageRoundTrip | src/protocol/mapping.rs:150-170 | through Anthropic the counts survive (0 for missing) and the total is recomputed |
| RetryPolicy.ShouldRetryUpstreamStatus | src/transport/retry_policy.rs:13-15 | retried exactly for 429, 503 and 529 |
| RetryPolicy.ContainsAsciiCaseInsensitive | src/transport/retry_policy.rs:65-79 | true for an empty needle, false for a shorter haystack |
| RetryPolicy.LowerSlice | src/transport/retry_policy.rs:65-79 | lower-casing commutes with slicing |
| RetryPolicy.WindowMatchFromIff | src/transport/retry_policy.rs:65-79 | the window loop finds a match exactly when the folded needle occurs at or after the position |
| RetryPolicy.CaseInsensitiveIsLoweredContains | src/transport/retry_policy.rs:65-79 | the search equals a plain substring test after folding case |
| RetryPolicy.AnyNeedle | src/transport/retry_policy.rs:18-34 | some needle occurs in the message, ignoring case |
| RetryPolicy.FastSignatureIsRetried | src/transport/retry_policy.rs:18-62 | every message on the fast path is also retried |
| RetryPolicy.PowMonotone | src/transport/retry_policy.rs:82-90 | powers grow with the exponent |
| RetryPolicy.RetryBackoffDelay | src/transport/retry_policy.rs:82-90 | 100, 200, 400, 800 ms, then the 1000 ms cap |
| RetryPolicy.ShiftBounds | src/transport/retry_policy.rs:82-90 | the capped shift gives a factor between 16 and 1024 from attempt 4 on |
| RetryPolicy.BackoffMonotone | src/transport/retry_policy.rs:82-90 | a later attempt never waits less |
| RetryPolicy.RetryTransportDelay | src/transport/retry_policy.rs:37-46 | a fast-signature error waits 0 ms on attempt 0 and 10 ms after; others use the backoff |
| RetryPolicy.ParseRetryAfterDelay | src/transport/retry_policy.rs:98-110 | an integer Retry-After is honoured up to 30 s; no header gives none |
| RetryPolicy.RetryDelay | src/transport/retry_policy.rs:93-95 | the server's delay when usable, else the backoff; never above 30 s |
| RetryPolicy.RetryAfterSecondsRoundTrip | src/transport/retry_policy.rs:98-110 | a decimal Retry-After of n seconds waits min(n, 30) s |
| RouteBreaker.ShouldTryAlternateUpstream | src/state/route_breaker.rs:188-196 | transport errors and statuses 408, 425, 429, 500, 502, 503, 504, 529 move on |
| RouteBreaker.ShouldRecordBreakerFailure | src/state/route_breaker.rs:199-207 | transport errors, 429 and every 5xx count against a breaker |
| RouteBreaker.AlternateImpliesRecorded | src/state/route_breaker.rs:188-207 | every error that moves on, except 408 and 425, also counts |
| RouteBreaker.RouteBreakerOpenSecs | src/state/route_breaker.rs:210-217 | 5 s up to five failures, then 15, 45 and 120 s |
| RouteBreaker.OpenSecsMonotone | src/state/route_breaker.rs:210-217 | more failures never shorten the open window |
| RouteBreaker.AfterFailure | src/state/route_breaker.rs:64-101 | a failure adds one (saturating), clears the probe flag and opens the breaker from the fifth failure on |
| RouteBreaker.Admit | src/state/route_breaker.rs:125-169 | no entry admits; an open breaker refuses; an expired one admits one half-open probe |
| RouteBreaker.SingleHalfOpenProbe | src/state/route_breaker.rs:149-168 | after one probe is admitted, further requests are refused until an outcome |
| RouteBreaker.FifthFailureOpens | src/state/route_breaker.rs:64-101 | four failures leave the breaker closed, the fifth opens it |
| RouteBreaker.CountTrue | src/state/route_breaker.rs:171-184 | the count is at most the number of shards |
| RouteBreaker.CountTrueSet | src/state/route_breaker.rs:53-60 | setting one flag changes the count by exactly that flag |
| RouteBreaker.RetainOpenOrFailing | src/state/route_breaker.rs:89-93 | only open or failing breakers are kept, unchanged; a shard of failed breakers keeps them all |
| RouteBreaker.AsWrittenRetainKeepsClosed | src/state/route_breaker.rs:89-93 | as written, a shard whose breakers have all failed at least once keeps every one on pruning, closed ones included, so pruning frees nothing |
| RouteBreaker.PruneShard | src/state/route_breaker.rs:89-93 | the corrected pruning keeps exactly the breakers still open, unchanged |
| RouteBreaker.PruneShardShrinks | src/state/route_breaker.rs:89-93 | with the corrected pruning a closed breaker is dropped, so the shard shrinks |
| RouteBreaker.StoreShardKeepsInvariant | src/state/route_breaker.rs:64-101 | storing a non-empty shard of failed breakers and flagging it keeps the registry invariant |
| RouteBreaker.RouteBreakerRegistry.constructor | src/state/route_breaker.rs:26-38 | one empty shard per upstream and no active shard |
| RouteBreaker.RouteBreakerRegistry.HasAnyEntries | src/state/route_breaker.rs:121-123 | true exactly when some shard holds an entry |
| RouteBreaker.RouteBreakerRegistry.RecordSuccess | src/state/route_breaker.rs:40-61 | the group's entry is removed and the active-shard count stays exact |
| RouteBreaker.RouteBreakerRegistry.RecordFailure | src/state/route_breaker.rs:64-101 | errors that do not count change nothing; otherwise the entry becomes `AfterFailure` of the old one |
| RouteBreaker.RouteBreakerRegistry.RecordOutcome | src/state/route_breaker.rs:64-114 | on the upstream's shard, a success removes exactly the group's entry; a failure the breaker counts replaces exactly that entry by the state after one more failure at `now`; a failure it does not count, or an unknown upstream, changes nothing |
| RouteBreaker.RouteBreakerRegistry.AllowsRequest | src/state/route_breaker.rs:116-169 | the answer and the new entry are `Admit` of the old entry; no other entry changes |
| RouteBreaker.SuccessReopensRoute | src/state/route_breaker.rs:40-61 | after a success the next request for the group is admitted |
| RequestId.RequestIdGenerator.constructor | src/state/request_id.rs:10-17 | the counter starts at 1 |
| RequestId.RequestIdGenerator.NextSeq | src/state/request_id.rs:19-21 | returns the counter and moves it on by one, so successive values increase |
| RequestId.RequestIdGenerator.RequestUuid | src/state/request_id.rs:24-26 | the id XORed with the seed is the sequence number; sequence 0 gives the seed |
| RequestId.UuidsDistinct | src/state/request_id.rs:24-26 | distinct sequence numbers give distinct ids |
| TokenCounter.EstimateTokens | src/observability/token_counter.rs:9-11 | a quarter of the byte length rounded up; 0 exactly for the empty text |
| TokenCounter.EstimateRequestTokens | src/observability/token_counter.rs:18-61 | the running total equals the sum over system prompt, parts and tools |
| TokenCounter.PartsTokensAppend | src/observability/token_counter.rs:18-61 | the estimate is additive over concatenated parts |
| TokenCounter.ImagesAreFree | src/observability/token_counter.rs:33-44 | inserting an image part never changes the estimate |
| TokenCounter.AppendMessage | src/observability/token_counter.rs:18-61 | one more message adds exactly its parts' estimate |
| TokenCounter.MergeUsage | src/observability/token_counter.rs:71-94 | non-zero upstream counts win, missing or zero ones are estimated, and a missing total is input + output |
| TokenCounter.MergeFixpoint | src/observability/token_counter.rs:71-94 | a fully reported usage is left unchanged, and merging is idempotent |
| Routing.SplitEntry | src/routing/mod.rs:56-66 | an entry without `:` is both alias and real model; otherwise the alias is the text before the first `:` and the real model the rest |
| Routing.IndexOfFrom | src/routing/mod.rs:348-361 | the position of the first equal entry, or none |
| Routing.Intern | src/routing/mod.rs:348-361 | a model name gets the id of its existing entry, or is appended with the next id; the table stays duplicate-free |
| Routing.CoversPersist | src/routing/mod.rs:56-105 | an indexed entry stays indexed as the index grows |
| Routing.AddEntryFacts | src/routing/mod.rs:56-86 | one configured entry keeps the index well formed, grows it and indexes the entry |
| Routing.GrowsTrans | src/routing/mod.rs:56-105 | growing the index is transitive |
| Routing.AddEntriesFacts | src/routing/mod.rs:56-86 | all entries of one service are indexed under that service's upstream |
| Routing.IndexServicesFacts | src/routing/mod.rs:51-105 | the finished index is well formed, names only configured upstreams and holds every entry of every service |
| Routing.SingletonKeys | src/routing/mod.rs:88-103 | a one-key map has only that key |
| Routing.InternModelId | src/routing/mod.rs:348-361 | the map-and-table update returns what `Intern` specifies and keeps map and table in agreement |
| Routing.IndexService | src/routing/mod.rs:56-86 | the per-service loop produces `AddEntries` of the index so far |
| Routing.AddEntriesStep | src/routing/mod.rs:56-86 | indexing one more entry is one `AddEntry` step |
| Routing.SingleExactRoute | src/routing/mod.rs:88-103 | the single-route shortcut exists exactly when there is one model with one candidate, and it is that candidate |
| Routing.BuildRouter | src/routing/mod.rs:51-105 | the router's index is `IndexServices` of the configuration, the shortcut agrees with it, and every upstream index is in range |
| Routing.SelectAliasGroupIndex | src/routing/mod.rs:318-322 | the selected index is inside the group, and 0 for a single candidate |
| Routing.RouteFromCandidate | src/routing/mod.rs:287-306 | a known model id gives that upstream and real model; an unknown one gives the "Invalid internal model id" error |
| Routing.ResolveIsIndexLookup | src/routing/mod.rs:152-285 | an unknown model is "No upstream found"; a known one resolves to the candidate picked from its group by the hash |
| Routing.RequiresHashIffGroup | src/routing/mod.rs:116-123 | a request hash is needed exactly for a model with more than one candidate |
| Routing.HasCandidateIffIndexed | src/routing/mod.rs:126-137 | true exactly when some candidate of the model is on that upstream |
| Routing.SingleCandidateAgreesWithResolve | src/routing/mod.rs:168-191 | an unknown model is an error, a group gives no answer, and a single candidate is what `Resolve` gives for any hash |
| Routing.Rotate | src/routing/mod.rs:218-220 | the rotation keeps length and members and starts at the chosen candidate |
| Routing.FirstOccurrencesSnoc | src/routing/mod.rs:220-232 | one more candidate is kept exactly when its upstream is new |
| Routing.FirstOccurrencesNoDuplicates | src/routing/mod.rs:220-232 | no upstream appears twice among the kept candidates |
| Routing.FirstOccurrencesCover | src/routing/mod.rs:220-232 | the kept candidates come from the list, cover every upstream of it and start with its first |
| Routing.Targets | src/routing/mod.rs:220-233 | successful targets match the candidates one to one, upstream by upstream |
| Routing.TargetsAllValid | src/routing/mod.rs:287-306 | with every model id known, all targets succeed and the first is the first candidate's |
| Routing.TargetsSnoc | src/routing/mod.rs:220-233 | the target list is built one candidate at a time, stopping at the first error |
| Routing.MarkUnseenUpstream | src/routing/mod.rs:325-341 | an upstream below 128 is new exactly when not yet seen, and becomes seen; larger ones are never new |
| Routing.UpstreamsSnoc | src/routing/mod.rs:325-341 | appending a candidate adds its upstream |
| Routing.UpstreamsAt | src/routing/mod.rs:325-341 | an upstream is present exactly when some candidate has it |
| Routing.FirstOccurrencesGrow | src/routing/mod.rs:220-232 | the kept list of a prefix is a prefix of the kept list |
| Routing.TargetsErrExtends | src/routing/mod.rs:220-233 | once a prefix fails, the whole list fails with the same error |
| Routing.PrefixStep | src/routing/mod.rs:220-232 | the kept list of one more candidate grows exactly when the upstream is new |
| Routing.PrefixErr | src/routing/mod.rs:220-233 | an invalid model id in a prefix is the error of the whole list |
| Routing.SeenStep | src/routing/mod.rs:325-341 | the seen set tracks exactly the upstreams kept so far |
| Routing.FirstOccurrenceRoutes | src/routing/mod.rs:218-237 | the dedup loop returns the targets of the first occurrence of each upstream |
| Routing.ResolveOrdered | src/routing/mod.rs:201-246 | the imperative ordering returns what `ResolveOrderedSpec` specifies |
| Routing.OrderedHasNoDuplicates | src/routing/mod.rs:201-246 | no upstream appears twice in the failover list |
| Routing.OrderedStartsWithResolved | src/routing/mod.rs:201-246 | the list exists exactly for a known model, starts with what `Resolve` picks and reaches every upstream of the group |
| Routing.GroupOrderFacts | src/routing/mod.rs:201-246 | for a group of several candidates the ordered list is non-empty, starts at the hashed start and covers every upstream |
| RoutingPolicy.StickyHashWrites | src/routing/policy.rs:40-57 | the hashed input is the client key (when any), a separator, the model, a second separator and at most 256 bytes of the prompt prefix |
| RoutingPolicy.StickyHashIgnoresTail | src/routing/policy.rs:40-57 | prompts that agree on their first 256 bytes hash the same |
| RoutingPolicy.Bucket | src/routing/policy.rs:84-105 | a bucket is no longer than the routes |
| RoutingPolicy.BucketMembers | src/routing/policy.rs:84-105 | a bucket holds routes whose provider and breaker state match it |
| RoutingPolicy.BucketsPartition | src/routing/policy.rs:84-105 | the four buckets together are the routes, as a multiset |
| RoutingPolicy.BucketStep | src/routing/policy.rs:84-105 | one more route lands in exactly the bucket of its provider side and breaker verdict |
| RoutingPolicy.BucketBagStep | src/routing/policy.rs:84-105 | one more route adds exactly that route to the four buckets together |
| RoutingPolicy.PolicyOrderPermutes | src/routing/policy.rs:59-127 | the policy order is a permutation of the ordered routes |
| RoutingPolicy.PortableAllowedFirst | src/routing/policy.rs:107-114 | for a portable session every allowed route comes before every refused one |
| RoutingPolicy.AnchoredSameProviderFirst | src/routing/policy.rs:115-124 | for an anchored session every route on the primary's provider comes before any other |
| RoutingPolicy.PrimaryStaysFirst | src/routing/policy.rs:59-127 | an allowed primary route stays first |
| RoutingPolicy.BucketHead | src/routing/policy.rs:84-105 | the allowed same-provider bucket starts with the primary |
| RoutingPolicy.OrderRoutes | src/routing/policy.rs:80-126 | the bucket loop returns `PolicyOrder` |
| RoutingPolicy.OrderedInRange | src/routing/policy.rs:59-82 | every ordered route names a configured upstream |
| RoutingPolicy.ResolveRoutesWithPolicy | src/routing/policy.rs:59-127 | resolution plus bucketing returns `RoutesWithPolicy` |
| RoutingPolicy.AllowedBucketIsSide | src/routing/policy.rs:129-164 | with every route allowed, the allowed bucket is the provider side and the refused one is empty |
| RoutingPolicy.AllAllowedIsPolicyOrder | src/routing/policy.rs:129-164 | the all-allowed variant equals the policy order with every route allowed, for both session classes |
| RoutingPolicy.OrderAllAllowed | src/routing/policy.rs:129-164 | the two-bucket loop returns `AllAllowedOrder` |
| RoutingPolicy.ProviderSideStep | src/routing/policy.rs:129-164 | one more route joins the side its provider puts it on |
| Session.TrimAndCapPrefix | src/routing/session.rs:22-28 | leading JSON whitespace is dropped and at most 256 bytes are kept, all of them when fewer |
| Bytes.Slice | src/routing/session.rs:30-34 | a range gives bytes exactly when it lies inside the body |
| Session.FirstFieldToken | src/routing/session.rs:36-49 | the token of the first listed field present, none exactly when none is present |
| Session.RoutePromptPrefixBytes | src/routing/session.rs:16-54 | the probe's messages range wins, then `input`, `messages`, `contents`, `prompt`, then the head of the body; always trimmed and capped |
| Session.TopLevelFieldNonNull | src/routing/session.rs:80-87 | true exactly when the member is present and its value is not `null` in any case |
| Session.AnyNonNull | src/routing/session.rs:57-78 | some listed field is present and non-null |
| Session.ClassifySessionClass | src/routing/session.rs:57-78 | anchored exactly when `previous_response_id`, `thread_id`, `session_id` or `conversation_id` is non-null |
| Session.ClassIgnoresMessagesRange | src/routing/session.rs:57-78 | the messages range never changes the class |
| Session.NoFieldOutsideObject | src/routing/session.rs:80-87 | a body that is not an object has no members |
| Session.NonObjectIsPortable | src/routing/session.rs:57-78 | a body that is not an object is portable |
| Session.NoNonNullOutsideObject | src/routing/session.rs:57-78 | a body that is not an object has no non-null field |
| Session.NoFirstFieldOutsideObject | src/routing/session.rs:16-54 | a body that is not an object has none of the prompt fields |
| Session.NonObjectPrefix | src/routing/session.rs:16-54 | without a range, a non-object body's prefix is its own trimmed head |
| Dispatch.TrimEndByte | src/routing/dispatch.rs:77-86 | a prefix of the text, not ending in the byte, with only that byte dropped |
| Dispatch.NormalizeBasePath | src/routing/dispatch.rs:77-86 | empty and `/` give no base; otherwise the result starts with `/` and does not end with one |
| Dispatch.NormalizeTwiceDiffers | src/routing/dispatch.rs:77-86 | `a /` normalises to `/a `, which normalises again to `/a` |
| Dispatch.TrimEndSlashWs | src/routing/dispatch.rs:77-86 | a prefix that ends in neither a slash nor whitespace |
| Dispatch.NormalizeBasePathStable | src/routing/dispatch.rs:77-86 | empty and `/` give no base; otherwise the result starts with `/` and ends in neither slash nor whitespace |
| Dispatch.TrimFixed | src/routing/dispatch.rs:77-86 | a text without surrounding whitespace is its own trim |
| Dispatch.NormalizeStableIdempotent | src/routing/dispatch.rs:77-86 | the corrected normalisation is a fixed point |
| Dispatch.NormalizeStableAgrees | src/routing/dispatch.rs:77-86 | the corrected normalisation equals the original whenever no whitespace precedes the trailing slashes |
| Dispatch.TrimEndSlashWsStops | src/routing/dispatch.rs:77-86 | removing slashes and whitespace together equals removing slashes when that stops at another byte |
| Dispatch.StripBasePath | src/routing/dispatch.rs:157-170 | no base passes every path; the base itself gives `/`; a path continuing the base after `/` gives the rest; nothing else passes |
| Dispatch.MatchRoute | src/routing/dispatch.rs:100-155 | a path outside the base is not found; otherwise the remainder is matched |
| Dispatch.FixedRoutesTable | src/routing/dispatch.rs:106-140 | each fixed route answers its own method and 405 for any other |
| Dispatch.GeminiRoute | src/routing/dispatch.rs:141-153 | under `/v1beta/models/` a POST with a non-empty action reaches Gemini, an empty action is not found, other methods get 405 |
| Dispatch.BasePathIsTransparent | src/routing/dispatch.rs:100-170 | a request under the base routes as its remainder |
| Bootstrap.PositionFrom | src/api/engine/compat_flow/bootstrap.rs:25-31 | the first matching position from the start, or -1 when none matches |
| Bootstrap.StartCandidateIndex | src/api/engine/compat_flow/bootstrap.rs:14-32 | inside a non-empty list; a positive index is the first match; 0 means the head matches, nothing matches or the list is empty |
| Bootstrap.StartIsFirstOccurrence | src/api/engine/compat_flow/bootstrap.rs:14-32 | a route in the list is found at or before any of its positions |
| Bootstrap.ShouldContinueStreamFailover | src/api/engine/compat_flow/bootstrap.rs:35-42 | false at the last candidate, otherwise whether the error is worth trying elsewhere |
| Validation.ValidateServerConfig | src/config/validation.rs:23-59 | accepted exactly when the idle-pool size is positive and every optional runtime count that is set is positive; a zero pool size is the first error |
| Validation.FirstBlankFrom | src/config/validation.rs:61-71 | the first key from a position that is blank after trimming, or none when no later key is blank |
| Validation.ValidateAllowedKeys | src/config/validation.rs:61-71 | accepted exactly when there is at least one key and no key is blank; an empty list is its own error |
| Validation.ProxyIssue | src/config/validation.rs:174-198 | an absent proxy passes, a blank one is an empty-proxy error, and a passing proxy parses with scheme http or https |
| Validation.ServiceIssue | src/config/validation.rs:87-115 | a service passes only with an http:// or https:// base URL, and a bad base URL is the first error |
| Validation.FirstServiceIssue | src/config/validation.rs:87-115 | no error exactly when every service from the position passes its own checks |
| Validation.FirstWithoutModels | src/config/validation.rs:117-125 | no error exactly when every service from the position lists a model |
| Validation.ModelIssueFromNone | src/config/validation.rs:133-159 | a service's model list passes exactly when every entry is non-blank, a well-formed alias if it has a colon, and not repeated earlier in the list |
| Validation.ModelsIssueFromNone | src/config/validation.rs:132-160 | the model pass succeeds exactly when every service's list is well formed |
| Validation.UpstreamServicesVerdictMeaning | src/config/validation.rs:81-172 | the services are accepted exactly when there is one, each passes its checks, has models, has a well-formed list, and no alias is also a regular model name |
| Validation.SameModelAcrossServices | src/config/validation.rs:127-128 | two services exposing the same model are accepted (failover) |
| Validation.DuplicateInServiceRejected | src/config/validation.rs:141-146 | a model listed twice in one service is a duplicate-entry error |
| Validation.AliasShadowingRegularRejected | src/config/validation.rs:162-169 | an alias that is also a regular model name is rejected |
| Validation.CheckServiceModels | src/config/validation.rs:133-159 | the per-service loop reports what `ModelIssueFrom` specifies and, on success, adds the service's regular names and aliases to the running sets |
| Validation.ValidateUpstreamServices | src/config/validation.rs:81-172 | the three loops and the alias check return what `UpstreamServicesVerdict` specifies |
| Validation.ValidateLogLevel | src/config/validation.rs:200-208 | accepted exactly when the upper-cased level is one of DEBUG, INFO, WARNING, ERROR, CRITICAL, DISABLED |
| Validation.UpperIffIgnoreCase | src/config/validation.rs:200-208 | upper-casing gives an upper-case word exactly when the level equals it ignoring case |
| Validation.LogLevelIgnoresCase | src/config/validation.rs:200-208 | a level is accepted exactly when it equals a known level ignoring ASCII case |
| Validation.ValidatePromptTemplates | src/config/validation.rs:210-226 | accepted exactly when a custom prompt template contains both `{tools_list}` and `{trigger_signal}` and a custom retry template contains both `{error_details}` and `{original_response}` |
| Validation.ValidateConfig | src/config/validation.rs:10-17 | accepted exactly when all five sections pass; the server section's error is reported first |
| Validation.ValidConfigFacts | src/config/validation.rs:10-17 | an accepted configuration has a non-empty list of non-blank client keys and valid services |
| Auth.AsStr | src/auth.rs:30-45 | a header value reads as text exactly when every byte is visible ASCII or a tab |
| Auth.StripBearer | src/auth.rs:36-45 | a value yields a key exactly when it starts with `Bearer `, and the value is `Bearer ` followed by the key |
| Auth.ExtractApiKey | src/auth.rs:26-48 | Anthropic takes `x-api-key`; the OpenAI ingresses take the bearer token; Gemini takes a readable `x-goog-api-key` first; any failure is "Missing API key" |
| Auth.GeminiFallsBackToBearer | src/auth.rs:32-40 | without a readable `x-goog-api-key`, Gemini extracts the key as the OpenAI ingresses do |
| Auth.BearerHeaderYieldsKey | src/auth.rs:41-44 | a readable `Bearer <key>` header yields exactly that key on both OpenAI ingresses |
| Auth.KeyBytesForHash | src/auth.rs:60-89 | the hash input follows the same header choice on raw bytes, a present `x-goog-api-key` winning outright |
| Auth.HashBytesMatchExtractedKey | src/auth.rs:26-89 | when every header is readable, the hash input exists exactly when a key is extracted, and is that key |
| Auth.AuthenticateSingleKey | src/auth.rs:118-152 | accepts exactly when the ingress's header equals the key (or `Bearer ` and the key) byte for byte; a Gemini `x-goog-api-key` that does not match is refused without looking at Authorization |
| Auth.Authenticate | src/auth.rs:97-116 | an empty index refuses everything; a key set accepts exactly when the extracted key is in it, and a missing key stays "Missing API key" |
| Auth.SingleAgreesWithSet | src/auth.rs:97-152 | for a readable key, the single-key fast path accepts exactly the requests a one-key set accepts, as long as any `x-goog-api-key` is readable |
| Auth.AllowedKeysOf | src/auth.rs:156-175 | no keys give the empty index; one distinct key gives that key with its `Bearer ` form; several give the set of them |
| Auth.BuildAllowedKeySet | src/auth.rs:156-175 | the collecting loop builds what `AllowedKeysOf` specifies |
| Auth.ConfiguredKeyAccepted | src/auth.rs:97-175 | every configured key is accepted when sent as a readable bearer token |
| Auth.ValidConfigHasKeys | src/auth.rs:156-175 | a configuration that passes validation never builds the empty index |
| FcActions.GetFcMode | src/fc/action.rs:23-31 | no tools means skip; injection exactly for an `inject` upstream; `native` and `auto` pass tools natively |
| FcActions.DecideFcAction | src/fc/action.rs:38-50 | skip exactly without tools; inject exactly when function calling is enabled and the upstream injects; enabled, it agrees with `GetFcMode` |
| FcActions.AllowAutoInjectFallback | src/fc/action.rs:54-60 | a fallback is allowed exactly when function calling is enabled, the upstream's mode is `auto` and the action decided for the request is a native attempt (so the request has tools) |
| FcActions.FallbackFollowsNativeAttempt | src/fc/action.rs:38-60 | whenever a fallback is allowed the first attempt was native |
| FcActions.DisabledNeverInjects | src/fc/action.rs:38-60 | with function calling disabled nothing is injected and no fallback is offered |
| FcActions.AnyKeyword | src/fc/action.rs:78-87 | true exactly when the message contains one of the keywords |
| FcActions.ShouldAutoFallbackToInject | src/fc/action.rs:68-105 | only an upstream error with status 400, 404, 422 or 501 qualifies, and then exactly when the lower-cased message names tools and says they are unsupported |
| FcActions.FallbackIgnoresCase | src/fc/action.rs:76 | the decision is the same for a message and its lower-cased form |
| FcActions.KeywordsFallBack | src/fc/action.rs:68-105 | an upstream error with a capability status whose message contains, in any letter case, any one tool keyword and any one "unsupported" keyword falls back to injection |
| FcRetry.ShouldRetry | src/fc/retry.rs:40-50 | a retry needs retries enabled, the trigger seen and a parse failure, and then happens exactly while the attempt is below the budget |
| FcRetry.ZeroBudgetNeverRetries | src/fc/retry.rs:40-50 | a zero budget never retries |
| FcRetry.BuildRetryPrompt | src/fc/retry.rs:61-70 | a template (custom, or the built-in one) with neither placeholder is sent unchanged |
| Bytes.ReplaceAllInsertsReplacement | src/fc/retry.rs:66-69 | replacing a placeholder that occurs puts the replacement into the text |
| Bytes.ReplaceAllKeeps | src/fc/retry.rs:66-69 | replacing one placeholder keeps every occurrence of another text that no match of the placeholder overlaps |
| FcRetry.PromptCarriesOriginalResponse | src/fc/retry.rs:61-70 | every custom template that contains `{original_response}` yields a prompt containing the original response, whatever it holds besides |
| FcRetry.DefaultPromptCarriesOriginalResponse | src/fc/retry.rs:12-70 | the built-in prompt always contains the original response |
| FcRetry.DefaultPromptSubstitutes | src/fc/retry.rs:12-70 | the built-in prompt is the built-in text with the original response and the error details in place of their placeholders, whenever the error details do not spell `{original_response}` |
| FcRetry.ErrorDetailsAreSubstitutedAgain | src/fc/retry.rs:66-69 | for every template asking for the error details, error details that spell `{original_response}` are replaced by the original response in turn, so the prompt contains it |
| FcRetry.BuildRetryMessages | src/fc/retry.rs:83-109 | the original conversation unchanged, then the failed answer as an assistant text turn, then the prompt as a user text turn |
| FcRetry.RetryRoundsOnlyAppend | src/fc/retry.rs:83-109 | a second retry round keeps the whole first round as a prefix |
| FcRetry.RetryContext.constructor | src/fc/retry.rs:131-138 | the budget, switch and template come from the features and counting starts at zero |
| FcRetry.RetryContext.ShouldContinue | src/fc/retry.rs:145-147 | on a context built from the features, the same answer as `ShouldRetry` for the current attempt |
| FcRetry.RetryContext.Increment | src/fc/retry.rs:150-152 | the counter goes up by one (wrapping at 2^32), nothing else changes, and counting after a permitted attempt never passes the budget |
| FcPolicies.PolicyOf | src/state/fc_policy.rs:36-51 | the upstream's mode, or `Native` for every upstream when function calling is disabled |
| FcPolicies.PoliciesOf | src/state/fc_policy.rs:36-51 | one policy per configured upstream, in order |
| FcPolicies.ShardCached | src/state/fc_policy.rs:101-113 | a known id is cached exactly when its slot exists and expires after now; otherwise exactly when the model's name entry expires after now |
| FcPolicies.Unexpired | src/state/fc_policy.rs:130-132 | keeps exactly the entries that expire after now, unchanged |
| FcPolicies.MarkedRouteCachedUntilExpiry | src/state/fc_policy.rs:96-134 | after a mark, the route reads as cached exactly until now plus fifteen minutes (saturating) |
| FcPolicies.MarkPastKnownTableIsInvisible | src/state/fc_policy.rs:103-133 | a known id past the table is written by name but read by id, so its mark never shows |
| FcPolicies.MarkLeavesOtherRoutes | src/state/fc_policy.rs:116-134 | a mark changes no other route's answer from now on, since pruning drops only expired entries |
| FcPolicies.FcPolicyCache.constructor | src/state/fc_policy.rs:35-67 | the policies of the configuration and `upstreamCount` shards of zeroed slots with empty name tables |
| FcPolicies.FcPolicyCache.PolicyAt | src/state/fc_policy.rs:78-83 | an upstream past the table has the `Native` policy |
| FcPolicies.FcPolicyCache.AutoInjectCached | src/state/fc_policy.rs:96-114 | an upstream past the shard table is never cached; otherwise its shard answers |
| FcPolicies.FcPolicyCache.Decision | src/state/fc_policy.rs:70-93 | nothing without tools; otherwise a fallback is allowed exactly for non-`Inject` policies, and FC is active exactly for `Inject` or a cached route |
| FcPolicies.FcPolicyCache.MarkAutoInject | src/state/fc_policy.rs:116-134 | the route's shard becomes `MarkShard` of itself; an upstream past the table changes nothing; the policies never change |
| FcPolicies.DecisionInjectsAfterMark | src/state/fc_policy.rs:70-134 | until a mark expires, the decision for that route injects |
| FcPolicies.UncachedDecisionMatchesAction | src/state/fc_policy.rs:70-93 | with nothing cached, the cached decision injects exactly when `decide_fc_action` says inject |
| FcPolicies.CachedFallbackWiderThanAction | src/state/fc_policy.rs:78-93 | with function calling disabled, the cached decision allows a fallback that `allow_auto_inject_fallback` refuses |
| ModelList.ModelsCache.constructor | src/state/models_cache.rs:23-30 | a new cache holds the initial body, is due at once and has no refresh in flight |
| ModelList.ModelsCache.SetBody | src/state/models_cache.rs:37-39 | the body is replaced and the refresh schedule is untouched |
| ModelList.ModelsCache.TryBeginRefresh | src/state/models_cache.rs:42-58 | succeeds exactly when the ttl is non-zero, the deadline has passed and no refresh is in flight; on success the deadline becomes `now + ttl` (saturating) and no caller is admitted until the refresh finishes; on failure nothing changes |
| ModelList.ModelsCache.FinishRefresh | src/state/models_cache.rs:60-62 | clears the in-flight flag and keeps the deadline, so the gate admits exactly the instants at or after it |
| ModelList.VisibleId | src/state/models_cache.rs:111 | the visible id is the prefix before the first `:`, contains no `:`, and is the whole name when it has none |
| ModelList.InsertVisibleMeaning | src/state/models_cache.rs:110-115 | inserting adds exactly the models' visible ids, owned by the service, and never changes an owner already present |
| ModelList.InsertConfigVisibleModels | src/state/models_cache.rs:106-116 | the loop computes `InsertVisible` of the service's models |
| ModelList.BuildVisibleModelsFromConfig | src/state/models_cache.rs:98-104 | the loop enters every service in configuration order (`ConfigVisible`) |
| ModelList.ConfigVisibleKeeps | src/state/models_cache.rs:112-114 | an id already listed keeps its owner through every later service |
| ModelList.FirstServiceOwns | src/state/models_cache.rs:98-116 | the first service listing an id owns it |
| ModelList.ConfigVisibleKeys | src/state/models_cache.rs:98-116 | only ids some service lists become visible |
| ModelList.SharedIdOwnedByFirstService | src/state/models_cache.rs:98-116 | two services sharing `gpt-4` under different suffixes yield three ids, and the first owns the shared one |
| ModelList.VisibleIdAtColon | src/state/models_cache.rs:111 | `name:rest` and a colon-free `name` both show as `name` |
| ModelList.ModelsRoot | src/state/models_cache.rs:185-194 | the endpoint root is a prefix of the base URL without its trailing slashes |
| ModelList.BuildModelsUrl | src/state/models_cache.rs:184-196 | the URL ends in `/models` after a prefix of the slash-trimmed base URL |
| ModelList.TrimEndSlashes | src/state/models_cache.rs:185 | any number of trailing slashes are removed, and nothing else |
| ModelList.SuffixClash | src/state/models_cache.rs:186-194 | a URL ending in one endpoint suffix does not end in a longer, different one |
| ModelList.ModelsUrlOfEndpoint | src/state/models_cache.rs:184-194 | a base URL ending in `/chat/completions`, `/responses` or `/messages` (plus any slashes) lists models at `root/models` |
| ModelList.ModelsUrlOfBase | src/state/models_cache.rs:195 | any other base URL lists models at the slash-trimmed URL plus `/models` |
| ModelList.StripModelsPrefix | src/state/models_cache.rs:233-235 | the result is the text, or the text after a leading `models/` |
| ModelList.StripGenerateAction | src/state/models_cache.rs:236-240 | the result is a prefix of the input |
| ModelList.NormalizeModelId | src/state/models_cache.rs:228-246 | blank input gives None; a result is never empty and is a prefix of the trimmed id with `models/` removed |
| ModelList.NormalizePlainId | src/state/models_cache.rs:228-246 | an id without surrounding blanks, `models/` prefix or colon comes back unchanged |
| ModelList.NormalizeGeminiName | src/state/models_cache.rs:228-246 | `models/NAME:generateContent` and `models/NAME:streamGenerateContent` normalise to `NAME` |
| ModelList.TrimUnchanged | src/state/models_cache.rs:229 | text with non-blank ends is its own trim |
| ModelList.StripActionOf | src/state/models_cache.rs:236-239 | `name:generateContent` keeps `name` when `name` has no colon |
| ModelList.IdOfItem | src/state/models_cache.rs:203-209 | an item contributes at most one id, never an empty one |
| ModelList.IdsOfItemsNonEmpty | src/state/models_cache.rs:202-210 | no id read from a list of items is empty |
| ModelList.ExtractedIdsNonEmpty | src/state/models_cache.rs:198-226 | no extracted id is empty |
| ModelList.PlainItemContributesId | src/state/models_cache.rs:203-209 | an item whose `id` is a plain id contributes exactly that id |
| ModelList.IdsOfItemsStep | src/state/models_cache.rs:202-210 | one more item appends its id to those of the items before it |
| ModelList.PushItemIds | src/state/models_cache.rs:202-210 | the loop appends `IdsOfItems` of the items |
| ModelList.ExtractModelIdsFromPayload | src/state/models_cache.rs:198-226 | the ids of the `data` items (by `id`, else `name`) followed by those of the `models` items (by `name`, else `id`) |
| ModelList.LexIrreflexive | src/state/models_cache.rs:179 | no string sorts before itself |
| ModelList.LexTransitive | src/state/models_cache.rs:179 | the string order is transitive |
| ModelList.LexTotal | src/state/models_cache.rs:179 | two different strings are ordered one way or the other |
| ModelList.LexAsymmetric | src/state/models_cache.rs:179 | two strings are never each below the other |
| ModelList.HeadIsLeast | src/state/models_cache.rs:179-180 | the head of a strictly increasing list is below, and differs from, every later id |
| ModelList.IncreasingUnique | src/state/models_cache.rs:179-180 | a sorted duplicate-free list is determined by its members |
| ModelList.InsertSorted | src/state/models_cache.rs:179-180 | inserting keeps the list strictly increasing and adds exactly the new id |
| ModelList.SortDedup | src/state/models_cache.rs:179-180 | `sort_unstable` then `dedup` yields a strictly increasing list with the same members |
| ModelList.FetchedModelIds | src/state/models_cache.rs:175-181 | no ids gives None; otherwise the ids sorted, deduplicated and non-empty |
| ModelList.MembersNonEmpty | src/state/models_cache.rs:179-180 | sorting and deduplicating keeps every id non-empty |
| ModelList.Enumerate | src/state/models_cache.rs:119-120 | some list of exactly the set's members |
| ModelList.Listing | src/state/models_cache.rs:118-132 | the listing holds every visible id once, in ascending order, each with its owner |
| ModelList.InsertRoutedMeaning | src/state/models_cache.rs:80-88 | merging fetched ids adds only ids that route to that upstream, owned by it, and never changes an owner |
| ModelList.BuildDynamicVisibleModels | src/state/models_cache.rs:69-96 | None exactly when no upstream's fetch succeeded; otherwise each service's configured ids and then its routed fetched ids, in configuration order |
| ModelList.DynamicKeepsConfigIds | src/state/models_cache.rs:69-104 | every id of the configuration listing is also in the dynamic listing |
| GeminiDecoder.CallIdInjective | src/protocol/gemini/decoder.rs:54 | two counter values give the same `call_<n>` id only when they are equal |
| GeminiDecoder.BindCall | src/protocol/gemini/decoder.rs:53-59 | a function call takes the current counter value, advances the counter by one and appends the value to its name's queue, leaving other names' queues alone |
| GeminiDecoder.BindResponse | src/protocol/gemini/decoder.rs:68-76 | a function response pops the oldest queued id of its name without touching the counter, or takes the counter value and advances it when the queue is empty; other queues are unchanged |
| GeminiDecoder.BindPreservesValid | src/protocol/gemini/decoder.rs:53-76 | binding a call or a response keeps every queue increasing and made of already issued values, and never moves the counter back |
| GeminiDecoder.ResponseBindsOldestCall | src/protocol/gemini/decoder.rs:68-71 | a response whose name has waiting calls is bound to an id issued earlier and no later than any other waiting id of that name (first in, first out) |
| GeminiDecoder.PartsKeepValid | src/protocol/gemini/decoder.rs:48-91 | decoding a content's parts keeps the binding valid and the counter monotone |
| GeminiDecoder.PartsIssued | src/protocol/gemini/decoder.rs:48-91 | within one content the tool-call ids are made from strictly increasing counter values lying in the range the content used up |
| GeminiDecoder.ContentsIssued | src/protocol/gemini/decoder.rs:41-110 | across all contents the tool-call ids are made from strictly increasing counter values issued during decoding |
| GeminiDecoder.RequestCallIdsDistinct | src/protocol/gemini/decoder.rs:37-110 | no two tool calls of a decoded request share an id |
| GeminiDecoder.CallThenTwoResponses | src/protocol/gemini/decoder.rs:494-549 | a call followed by two responses of its name yields `call_0`, a result bound to `call_0`, and a result with the fresh id `call_1` |
| GeminiDecoder.FirstResponseName | src/protocol/gemini/decoder.rs:95-98 | the name of the first function-response part, or None exactly when there is no function response |
| GeminiDecoder.RoleOf | src/protocol/gemini/decoder.rs:42-45 | a missing role decodes as the user's, and no content decodes as a system message |
| GeminiDecoder.DecodeContent | src/protocol/gemini/decoder.rs:93-109 | each content becomes one message with its decoded role; a tool-role message is named after its first function response and any other message has no name |
| GeminiDecoder.DecodeContents | src/protocol/gemini/decoder.rs:41-110 | one message per content |
| GeminiDecoder.SystemPrompt | src/protocol/gemini/decoder.rs:27-34 | a system prompt is present only when the system instruction's first part is text, and it is that text |
| GeminiDecoder.DecodeDeclaration | src/protocol/gemini/decoder.rs:120-128 | a tool keeps its declaration's name and description, and missing parameters become an empty object |
| GeminiDecoder.DecodeToolsMembers | src/protocol/gemini/decoder.rs:113-133 | a tool is in the decoded list exactly when it is the decoding of some declaration of some tool entry |
| GeminiDecoder.DecodeToolChoiceConfig | src/protocol/gemini/decoder.rs:342-360 | no config or no mode is auto; `NONE` is exactly no tools; `ANY` with exactly one allowed name is that specific function; `ANY` otherwise is exactly required |
| GeminiDecoder.DecodeOnePart | src/protocol/gemini/decoder.rs:49-90 | one iteration of the part loop updates the counter and the queues and emits the parts exactly as the part-decoding specification says |
| GeminiDecoder.DecodePartsLoop | src/protocol/gemini/decoder.rs:47-91 | the loop over a content's parts yields the counter, the queues and the parts of the specification |
| GeminiDecoder.DecodeGeminiRequest | src/protocol/gemini/decoder.rs:21-170 | the decoded request is the Gemini ingress request with the URL's model, no streaming, the system prompt, one message per content decoded with a fresh counter and empty queues, the flattened tools and the decoded tool choice |
| GeminiIngress.ParseModelAction | src/api/ingress/gemini/spec.rs:219-234 | the model is a prefix of the segment; streaming exactly when the segment is the model, a colon and `streamGenerateContent`; a segment without a colon is the whole model, not streaming |
| GeminiIngress.ParseSplitsAtAction | src/api/ingress/gemini/spec.rs:220-228 | `model:action` with a colon-free action splits back into that model (colons in the model kept) and streams exactly when the action is `streamGenerateContent` |
| GeminiIngress.StreamingFollowsTheAction | src/api/ingress/gemini/spec.rs:219-228 | `<model>:streamGenerateContent` streams and `<model>:generateContent` does not, both for the same model |
| GeminiIngress.EmptyModelSegment | src/api/ingress/gemini/spec.rs:220-224 | the segment `:streamGenerateContent` yields an empty model with streaming on |
| GeminiIngress.GeminiWireRequest.constructor | src/api/ingress/gemini/spec.rs:50-59 | a freshly parsed wire request has no model context and does not stream |
| GeminiIngress.GeminiWireRequest.SetRequestContext | src/api/ingress/gemini/spec.rs:61-69 | the stored model and streaming flag become the given ones, the flag read back by `wire_stream_requested`, and the request body is unchanged |
| GeminiIngress.GeminiWireRequest.DecodeWire | src/api/ingress/gemini/spec.rs:103-119 | decoding fails exactly when the stored model is empty, with the internal error `Gemini requested model context is missing`; otherwise the Gemini request carries the stored model, the stored streaming flag and the decoded messages |
| GeminiIngress.LastColon | src/api/ingress/gemini/spec.rs:220 | the position found holds the last `:` of the path segment, and none is found exactly when there is no `:` |
| PreparedUpstreams.NormalizeProxy | src/transport/prepared_upstream.rs:321-326 | no proxy when none is configured or the value is blank; otherwise the trimmed, non-empty value |
| PreparedUpstreams.ProxyFor | src/transport/prepared_upstream.rs:273-283 | the direction-specific proxy when present, otherwise the default proxy |
| PreparedUpstreams.ProxyForPrepared | src/transport/prepared_upstream.rs:64-66 | on a prepared upstream the proxy for a direction is that direction's normalised proxy, falling back to the normalised default |
| PreparedUpstreams.BuildProviderHeaders | src/transport/prepared_upstream.rs:285-318 | JSON content type always; `authorization: Bearer <key>` exactly for the OpenAI family and Responses when the value is a valid header; `x-api-key` and `anthropic-version` (default `2023-06-01`) exactly for Anthropic; `x-goog-api-key` exactly for Gemini; no other header |
| PreparedUpstreams.AnthropicDefaultHeaders | src/transport/prepared_upstream.rs:507-515 | an Anthropic upstream with a plain key and no version sends the key, version `2023-06-01` and no bearer token |
| PreparedUpstreams.ActualModelOfAlias | src/transport/prepared_upstream.rs:88-91 | the real model of an `alias:target` entry is the trimmed target |
| PreparedUpstreams.GeminiModelsMembers | src/transport/prepared_upstream.rs:86-95 | a model is in the Gemini model set exactly when it is non-empty and the real model of some configured entry |
| PreparedUpstreams.AliasTargetIsConfigured | src/transport/prepared_upstream.rs:433-451 | the non-empty target of an alias entry is among the models that get prepared URLs |
| PreparedUpstreams.CollectGeminiModels | src/transport/prepared_upstream.rs:86-95 | the first loop of `new` collects exactly the set of non-empty real models |
| PreparedUpstreams.FillGeminiTables | src/transport/prepared_upstream.rs:97-116 | the second loop of `new` maps every model to its `:generateContent` and `:streamGenerateContent` URLs, and to their parsed forms exactly when the parser accepts them |
| PreparedUpstreams.TablesInsert | src/transport/prepared_upstream.rs:101-115 | adding one model to the tables adds exactly its entry, and to a parsed table only when its URL parses |
| PreparedUpstreams.New | src/transport/prepared_upstream.rs:36-143 | the prepared upstream is the specification's: the endpoint of its provider only, its parsed form, the Gemini tables, the headers and the normalised proxies |
| PreparedUpstreams.RequestUrlIsEndpoint | src/transport/prepared_upstream.rs:182-209 | `request_url` is `<base>/chat/completions` for OpenAI and Gemini-OpenAI, `<base>/responses`, `<base>/messages`, and `<base>/models/<model>:generateContent` or `:streamGenerateContent` for Gemini, configured model or not, with the base URL's trailing slashes removed |
| PreparedUpstreams.TrailingSlashesIgnored | src/transport/prepared_upstream.rs:483-490 | any number of trailing slashes on the base URL leave the endpoint unchanged |
| PreparedUpstreams.StaticUrl | src/transport/prepared_upstream.rs:213-220 | no static URL for Gemini |
| PreparedUpstreams.RequestUrlParsed | src/transport/prepared_upstream.rs:224-237 | away from Gemini the parsed request URL is the static URL |
| PreparedUpstreams.ParsedUrlExactlyForConfigured | src/transport/prepared_upstream.rs:224-237 | for Gemini a parsed URL exists exactly for configured real models whose endpoint parses, and it is the request URL |
| PreparedUpstreams.StaticUrlIsEndpoint | src/transport/prepared_upstream.rs:213-237 | away from Gemini the parsed URL is the endpoint whenever it parses, whatever the model |
| Probe.CommonProbeRanges | src/api/common/probe.rs:330-336 | the scan fails unless the first non-blank byte opens an object |
| Probe.FindCommonProbeFieldRanges | src/api/common/probe.rs:330-376 | the cursor loop returns exactly the ranges of the member-list specification: the value range of each of `model`, `stream`, `tools`, `tool_choice` and `messages`, or failure on a malformed object |
| Probe.RecordMemberField | src/api/common/probe.rs:360-367 | recording a member sets the field its key names to its value range and leaves every other field alone |
| Probe.ProbeLoopStep | src/api/common/probe.rs:338-375 | one member of the loop: the result after a `,` is the loop on the rest with the member recorded, after `}` the recorded ranges, otherwise failure |
| Probe.ProbeLoopExit | src/api/common/probe.rs:339-344 | the loop stops at `}` with what it has recorded and fails on any byte that cannot start a member |
| Probe.ProbeFieldIsLastMember | src/api/common/probe.rs:356-367 | each recorded range is exactly one complete value of a top-level member with that key, no later member has the key (a later duplicate overwrites), and a key is unrecorded exactly when no member has it |
| Probe.ProbeRangeInBody | src/api/common/probe.rs:356-358 | every recorded range is a non-empty range inside the body |
| Probe.ParseOptionalBoolToken | src/api/common/probe.rs:300-311 | `true` gives Some(true), `false` Some(false), `null` None, and any other token or a range outside the body is an error |
| Probe.AllJsonWs | src/api/common/probe.rs:272-274 | true exactly when every byte is a space, newline, carriage return or tab |
| Probe.RawToolsTokenHasItems | src/api/common/probe.rs:268-275 | false exactly for `[`, whitespace, `]`; any token that is not such an array counts as having items |
| Probe.ParseModelToken | src/api/common/probe.rs:281-298 | success needs a quoted token of at least two bytes inside the body; without a backslash the inner bytes are returned verbatim |
| Probe.ModelNeedsJsonEscape | src/api/common/probe.rs:406-411 | true exactly when some byte is below 0x20, `"` or `\` |
| Probe.PlainModelQuoted | src/api/common/probe.rs:385-393 | a model with nothing to escape is written as `"`, the model, `"`, which is its JSON literal |
| Probe.RewriteModelTokenRange | src/api/common/probe.rs:379-403 | the new body is the bytes before the range, the model's JSON literal and the bytes after the range, on both the plain and the escaping path |
| Probe.UnescapeWithoutBackslash | src/api/common/probe.rs:290-294 | a string body without backslashes that reads back reads back as itself |
| Probe.RewriteRoundTrip | src/api/common/probe.rs:379-403 | reading the model token of the rewritten range gives back exactly the model written |
| Probe.ReadStringToken | src/api/common/probe.rs:285-297 | a string is read only from a quoted token; without a backslash it is the inner bytes verbatim |
| Probe.EscapeBodyScans | src/api/common/probe.rs:396-401 | everything the JSON string escaper writes is a valid string body for the scanner |
| Probe.RewrittenValueScans | src/api/common/probe.rs:379-403 | after the rewrite the scanner reads the new model value as exactly one string ending where the written literal ends |
| Probe.ParseFirstModelProbe | src/api/common/probe.rs:227-258 | the cursor steps return exactly the probe of the cursor-form specification |
| Probe.ParseModelValue | src/api/common/probe.rs:241-258 | the steps after the key return exactly the specified probe: `:`, a complete value, a readable model token |
| Probe.TryParseProbeWithoutStreamAndTools | src/api/common/probe.rs:222-259 | the fast probe is exactly its specification: the literal searches, then the cursor steps |
| Probe.FastProbeRefusesStreamAndTools | src/api/common/probe.rs:223-225 | a body holding `"stream"` or `"tools"` anywhere is refused by the fast probe |
| Probe.ModelKeyProbeReadsMember | src/api/common/probe.rs:236-248 | the key steps succeed only on a complete member whose key is `model`, and then give that member's probe |
| Probe.FastProbeReadsFirstMember | src/api/common/probe.rs:222-259 | a successful fast probe saw neither literal, its object's first member has key `model`, and it reports that member's token and value range, no stream and no tools |
| Probe.ProbeFromRanges | src/api/common/probe.rs:177-207 | a bad model token is reported first, then a bad stream token, both as invalid-request errors naming the request; otherwise the model is the token read, the stream comes only from a `stream` range, and tools count exactly when a `tools` range holds something other than an empty array |
| Probe.ParseCommonRequestProbe | src/api/common/probe.rs:134-208 | a successful fast probe is the answer; otherwise the range scan answers when it finds a `model`, and only then |
| RawInject.SimpleInjectBodyCacheable | src/api/ingress/openai_chat/fc/raw_inject.rs:53-56 | a body is cacheable exactly when it is at most 16 KiB and the model name at most 256 bytes |
| RawInject.JsonStringTokenEquals | src/api/ingress/openai_chat/fc/raw_inject.rs:567-577 | no answer for a token that is not a readable JSON string; otherwise true exactly when the decoded string is the expected one |
| RawInject.QuotedTokenEquals | src/api/ingress/openai_chat/fc/raw_inject.rs:567-577 | the token the JSON escaper writes for a text compares equal exactly to that text |
| RawInject.MessageTokenIsSimpleFcInject | src/api/ingress/openai_chat/fc/raw_inject.rs:505-565 | the member-by-member scan of one message answers exactly the simple-message predicate |
| RawInject.IsSimpleMessageMeaning | src/api/ingress/openai_chat/fc/raw_inject.rs:505-565 | a message is simple exactly when it is an object whose members all read, with a `role` member, no `system` or `tool` role, and no non-empty `tool_calls` |
| RawInject.MessagesInnerBoundsIfSimple | src/api/ingress/openai_chat/fc/raw_inject.rs:449-503 | the scan of the messages array returns exactly the specified inner bounds |
| RawInject.ScanSimpleItems | src/api/ingress/openai_chat/fc/raw_inject.rs:458-488 | the item loop stops at the closing bracket exactly where the item specification does, and fails exactly when it does |
| RawInject.TrimTrailingWs | src/api/ingress/openai_chat/fc/raw_inject.rs:494-500 | trailing whitespace is stripped from the inner range, never past its start |
| RawInject.InnerBoundsArray | src/api/ingress/openai_chat/fc/raw_inject.rs:449-503 | bounds are returned only for an array: they start after the opening bracket and its whitespace, and only whitespace lies between their end and a closing bracket that ends the token |
| RawInject.InnerBoundsTrimmed | src/api/ingress/openai_chat/fc/raw_inject.rs:494-500 | a non-empty inner range never ends in whitespace |
| RawInject.InnerBoundsFirstItem | src/api/ingress/openai_chat/fc/raw_inject.rs:470-476 | a non-empty inner range starts with a complete item that passes the message check |
| RawInject.TrimWsBackTrims | src/api/ingress/openai_chat/fc/raw_inject.rs:494-500 | only whitespace was removed, and the byte before the new end is not whitespace unless nothing is left |
| RawInject.InjectSystemMessageFromInnerBounds | src/api/ingress/openai_chat/fc/raw_inject.rs:409-423 | appends `[`, the system message, a comma and the original items when there are any, and `]` |
| RawInject.InjectSystemMessageIntoMessagesOut | src/api/ingress/openai_chat/fc/raw_inject.rs:391-407 | reports failure and leaves the output alone unless the array is simple; otherwise appends the injected array |
| RawInject.AppendJsonStringQuoted | src/api/ingress/openai_chat/fc/raw_inject.rs:425-447 | appends exactly the quoted JSON string the shared escaper defines |
| RawInject.BuildOpenAiSimpleInjectJsonBody | src/api/ingress/openai_chat/fc/raw_inject.rs:277-389 | the rebuild loop returns exactly the body the member-by-member specification gives |
| RawInject.BuildBodyMeaning | src/api/ingress/openai_chat/fc/raw_inject.rs:277-389 | for a well-formed object the result is the kept members joined by commas, `tools` and `tool_choice` dropped, `model` replaced or appended, `messages` injected, and nothing without `messages`; a malformed object gives no body or the invalid-body error |
| RawInject.EmitAllWrites | src/api/ingress/openai_chat/fc/raw_inject.rs:325-365 | writing members in order appends their kept texts joined by commas and records whether `model` and `messages` were seen |
| RawInject.EmitStepWrites | src/api/ingress/openai_chat/fc/raw_inject.rs:311-365 | one member is written unless its key is escaped or its new value cannot be built; `tools` and `tool_choice` change nothing; any other member is appended after a comma when needed |
| RawInject.HasKeyMeaning | src/api/ingress/openai_chat/fc/raw_inject.rs:333-336 | the seen-key flag is set exactly when some member has that key |
| RawInject.RunFromMembers | src/api/ingress/openai_chat/fc/raw_inject.rs:296-373 | the members the loop reads are exactly the object's members when it reaches the closing brace |
| RawInject.BuildFromDone | src/api/ingress/openai_chat/fc/raw_inject.rs:296-323 | a turn that stops the loop gives the final answer of the rest of the loop |
| RawInject.BuildFromClose | src/api/ingress/openai_chat/fc/raw_inject.rs:367-372 | a member followed by `}` ends the loop with that member written |
| RawInject.BuildFromAgain | src/api/ingress/openai_chat/fc/raw_inject.rs:367-372 | a member followed by a comma leaves the answer of the rest of the loop unchanged |
| RawInject.ReadMemberAt | src/api/ingress/openai_chat/fc/raw_inject.rs:304-323 | reading a key, its colon and its value gives the member the specification reads, or the invalid-body error |
| RawInject.EmitMemberOut | src/api/ingress/openai_chat/fc/raw_inject.rs:325-365 | writing one member gives exactly the specified new output and flags |
| RawInject.FinishBuild | src/api/ingress/openai_chat/fc/raw_inject.rs:375-388 | no body without `messages`; a missing `model` is appended before the closing brace |
| Sse.StripOneSpace | src/stream/sse.rs:172-174 | at most one leading space is dropped and the rest kept |
| Sse.StripCr | src/stream/sse.rs:117-119 | one trailing CR is dropped, nothing else |
| Sse.ProcessLine | src/stream/sse.rs:145-193 | a line dispatches at most one event, and only an `id:` line changes the last id |
| Sse.ScanFromRest | src/stream/sse.rs:131-143 | the kept unfinished line never holds a newline; text without a newline dispatches nothing and is all kept |
| Sse.ScanFromRestAfterNewline | src/stream/sse.rs:113-131 | once a newline has been read, the kept text is exactly what follows the last one |
| Sse.ScanFromConcat | src/stream/sse.rs:109-143 | reading `a + b` is reading `a` and then `b`, whatever the split |
| Sse.FeedChunked | src/stream/sse.rs:109-143 | feeding two chunks gives the same events, fields and unfinished line as feeding their concatenation |
| Sse.CrlfLikeLf | src/stream/sse.rs:117-119 | a line ended by CRLF reads exactly like the same line ended by LF |
| Sse.IgnoredLineTransparent | src/stream/sse.rs:167-192 | comments, `retry:` lines and unknown fields leave events and fields as if the line were absent |
| Sse.DataSpaceOptional | src/stream/sse.rs:172-174 | `data:v` and `data: v` give the same state when `v` does not start with a space |
| Sse.DataEmptyUntilSeen | src/stream/sse.rs:153-180 | the data buffer stays empty while no data line is pending, across any text |
| Sse.BlankLine | src/stream/sse.rs:153-165 | a blank line without data changes nothing; after data it dispatches one event with the type, data and last id, clears type and data and keeps the id |
| Sse.ScanStep | src/stream/sse.rs:114-129 | one character of the scan: a newline processes the line read so far, any other character extends it |
| Sse.Compacted | src/stream/sse.rs:131-142 | the kept buffer and offset always hold exactly the unread text, and the offset is zero unless the buffer is unchanged |
| Sse.SseParser.constructor | src/stream/sse.rs:80-89 | a new parser has an empty buffer, offset zero and no event fields |
| Sse.SseParser.ProcessLineInto | src/stream/sse.rs:145-193 | updates the parser fields and the event vector exactly as the line rule says, leaving the buffer alone |
| Sse.SseParser.EndLine | src/stream/sse.rs:116-127 | a completed line loses one trailing CR and is processed against the parser state, its events appended in order; the buffer is untouched |
| Sse.SseParser.ReadLines | src/stream/sse.rs:113-129 | processes every completed line in order and stops at the start of the unfinished line, as the scan specification does |
| Sse.SseParser.FeedInto | src/stream/sse.rs:109-143 | the new fields, events and unfinished line are those of the scan specification on the old unfinished line plus the chunk, and the buffer is compacted as the rule says |
| Sse.SseParser.FeedChunk | src/stream/sse.rs:102-106 | returns exactly the events of the scan specification for the chunk |
| Sse.PendingEvents.WithCapacity | src/stream/sse.rs:20-24 | a new queue is empty |
| Sse.PendingEvents.PopFront | src/stream/sse.rs:27-38 | returns the oldest queued event and removes it, or None on an empty queue; the storage is cleared once all are handed out |
| Sse.PendingEvents.ExtendFromVec | src/stream/sse.rs:41-47 | queues every parsed event behind the others, in order, and empties the caller's vector |
| Sse.OpenAiSseFrame | src/stream/sse.rs:279-285 | the frame starts with `data: ` and ends with a blank line |
| Sse.AnthropicSseFrame | src/stream/sse.rs:289-298 | the frame starts with `event: ` and ends with a blank line |
| Sse.EncodeSseFrame | src/stream/sse.rs:211-224 | a named frame is the Anthropic frame, an unnamed one the OpenAI frame |
| Sse.FastPathText | src/stream/sse.rs:231-233 | the fast path writes the same text as the general encoder |
| Sse.EncodeSseEvent | src/stream/sse.rs:229-253 | writes the event line, one `data:` line per newline-separated piece, the id line and a blank line |
| Sse.PushDataLines | src/stream/sse.rs:241-245 | appends one `data:` line per newline-separated piece of the data |
| Sse.DoneFrame | src/stream/sse.rs:273-275 | is the encoding of the unnamed `[DONE]` frame |
| Sse.FieldLine | src/stream/sse.rs:172-184 | a `data:`, `event:` or `id:` line with a one-line value sets exactly its field and dispatches nothing |
| Sse.ScanDataLines | src/stream/sse.rs:172-180 | consecutive data lines rebuild the data joined with newlines |
| Sse.EventRoundTrip | src/stream/sse.rs:229-253 | parsing an encoded event gives it back, with the last id, and leaves the parser idle |
| Sse.StreamRoundTrip | src/stream/sse.rs:229-253 | parsing the encoding of several events gives them back in order, with the last id carried to events without one |
| Sse.EncodedStreamParses | src/stream/sse.rs:102-106 | a fresh parser fed the encoding of some events returns exactly those events and keeps nothing |
| Sse.IdleStreamParses | src/stream/sse.rs:102-106 | the same from any parser state between events: the events come back in order, the last id carried on from the state's |
| Sse.FrameIsEventText | src/stream/sse.rs:211-224 | a one-line frame is written as the text of the matching event |
| Sse.FrameRoundTrip | src/stream/sse.rs:211-224 | parsing an encoded one-line frame gives one event with its name and data |
| Sse.DoneFrameIsDone | src/stream/sse.rs:261-275 | the `[DONE]` frame parses to one event that `is_done_event` accepts, and any data trimming to `[DONE]` is accepted |
| Sse.FindSseFrameTerminatorFrom | src/stream/sse.rs:396-419 | the earliest `\n\n` or `\r\n\r\n` at or after the clamped start, with its length, or None when there is none |
| Sse.FindSseFrameTerminator | src/stream/sse.rs:391-393 | the earliest frame terminator in the buffer, or None when there is none |
| StreamFrame.FramePayloadEnd | src/stream/mod.rs:106-115 | None exactly when the frame ends in neither `\r\n\r\n` nor `\n\n`; otherwise the payload stops before that terminator |
| StreamFrame.TryParseDataOnly | src/stream/mod.rs:117-138 | an answer needs the `data:` prefix and a blank-line terminator; it carries no event, id or retry, and its data holds no CR or LF |
| StreamFrame.EventAndDataLines | src/stream/mod.rs:151-168 | an answer needs an `event:` line and a `data:` line with no `\n` in it, after the CR is dropped where the rule says |
| StreamFrame.ParseSseFrameBytes | src/stream/mod.rs:37-104 | the fast paths and the line loop return exactly the frame parser's answer; that answer is the line loop's alone on every frame that does not end in `\r\r\n\r\n`, and can differ from it only on an `event:` frame ending so |
| StreamFrame.ProcessFrameLine | src/stream/mod.rs:73-99 | one non-blank line updates the collected fields exactly as the line rule says: comments skipped, data joined with `\n`, event and id set, retry parsed as `u64` or cleared |
| StreamFrame.DataOnlyAgrees | src/stream/mod.rs:117-138 | whatever the data-only fast path returns, the line loop returns too |
| StreamFrame.EventAndDataAgrees | src/stream/mod.rs:140-176 | whatever the corrected event-and-data fast path returns, the line loop returns too |
| StreamFrame.ParseSseFrameIsGeneral | src/stream/mod.rs:38-44 | the fast paths as written shortcut the line loop on every frame except an `event:` frame ending in `\r\r\n\r\n` |
| StreamFrame.IntendedIsGeneral | src/stream/mod.rs:140-176 | with the corrected event-and-data path, the parser's answer is the line loop's answer on every input |
| StreamFrame.FastPathsDiffer | src/stream/mod.rs:151-168 | the event-and-data path as written and the corrected one disagree only on an `event:` frame ending in `\r\r\n\r\n` |
| StreamFrame.AsWrittenEventFrame | src/stream/mod.rs:38-44 | a frame not starting with `d` that the event-and-data path as written reads gets that path's answer |
| StreamFrame.EventFrameIsGeneral | src/stream/mod.rs:42-44 | with the corrected path, a frame not starting with `data:` that the event-and-data path reads gets the line loop's answer |
| StreamFrame.FrameFromAgrees | src/stream/mod.rs:53-103 | the line loop returns the first event the incremental parser dispatches from a fresh state, with its retry, and None when that parser dispatches none |
| StreamFrame.IntendedIsFirstEvent | src/stream/mod.rs:24-31 | the corrected parser returns the first complete event of the text, as the documentation of `parse_sse_frame` says, and None exactly when there is none |
| StreamFrame.ParseSseFrameIsFirstEvent | src/stream/mod.rs:24-31 | the parser as written does the same on every frame that does not end in `\r\r\n\r\n` |
| StreamFrame.NoBlankLineNoFrame | src/stream/mod.rs:53-103 | text with no blank line ending a line gives None |
| StreamFrame.UnterminatedFrame | src/stream/mod.rs:875-879 | text with no `\n` at all (such as `data: hello`) gives None |
| StreamFrame.MultilineData | src/stream/mod.rs:868-873 | two `data:` lines give one event whose data joins them with `\n` |
| StreamFrame.NamedFrame | src/stream/mod.rs:858-866 | `event:`, `id:`, `retry:` and `data:` lines give an event with that name, id, numeric retry and data |
| StreamFrame.RetryValue | src/stream/mod.rs:95-98 | the decimal text of a `u64` in a `retry:` line is one line and parses back to the same number |
| StreamFrame.EventAndDataCrlfFinding | src/stream/mod.rs:163-165 | on `event: x\r\ndata: y\r\r\n\r\n` the parser as written returns data `y` while its line loop returns `y\r` |
| StreamFrame.CrlfFrame | src/stream/mod.rs:140-176 | on the same frame the corrected parser and the line loop both return data `y\r` |
| StreamFrame.EventAndDataOn | src/stream/mod.rs:140-176 | an `event:` line, a `data:` line and `\r\n\r\n` are read into the event name and data after one optional space |
| StreamFrame.EncodeCanonicalEvent | src/stream/mod.rs:188-223 | succeeds exactly for Done, Error, TextDelta and ToolResult, with a frame starting `data: ` and ending in a blank line; every other event is a translation error |
| StreamFrame.DoneEncodesSentinel | src/stream/mod.rs:190 | Done is encoded as the `[DONE]` frame |
| StreamFrame.PayloadOneLine | src/stream/mod.rs:191-217 | the JSON payload of every encodable event holds no CR or LF |
| StreamFrame.EncodeCanonicalParses | src/stream/mod.rs:188-223 | every frame the encoder writes parses back, through the data-only fast path, to an unnamed event whose data is the JSON payload |
| StreamFrame.DataOnlyOn | src/stream/mod.rs:117-138 | a `data: ` line holding a one-line payload and a blank line is read back as that payload |
| StreamFrame.EscapeBodyOneLine | src/stream/mod.rs:196 | the JSON string escaper never writes a raw CR or LF |
| StreamFrame.ParsedCallArgumentsDelta | src/stream/mod.rs:831-840 | the raw arguments JSON when the parser kept it, else the serialised value, else `{}` |
| StreamFrame.TryParseEventAndDataAsWritten | src/stream/mod.rs:141-176 | as written, a frame the fast path takes starts with `event:` and carries an event name |
| StreamFrame.TryParseEventAndData | src/stream/mod.rs:141-176 | a frame the corrected fast path takes starts with `event:` and carries an event name |
| Detector.ReasoningOpenTagLen | src/fc/detector.rs:103-126 | a length is returned only at a `<` not followed by `/`, and fits in the text |
| Detector.OpenTagMeaning | src/fc/detector.rs:103-126 | an opening tag is recognised exactly when the text starts with `<think>`, `<thinking>`, `<reasoning>` or `<analysis>`, and the length covers that tag |
| Detector.ReasoningCloseTagLen | src/fc/detector.rs:128-151 | a length is returned only at `</`, and fits in the text |
| Detector.CloseTagMeaning | src/fc/detector.rs:128-151 | a closing tag is recognised exactly when the text starts with one of the four closing tags, and the length covers that tag |
| Detector.MaxReasoningTagLen | src/fc/detector.rs:67-93 | the bound kept back for a closing tag is 12, the length of `</reasoning>`, the longest of the four |
| Detector.SkipContinuation | src/fc/detector.rs:153-160 | stops at the end or at the first byte that is not a UTF-8 continuation byte |
| Detector.NextCharBoundary | src/fc/detector.rs:153-160 | the next character starts strictly after `i` and within the text |
| Detector.NextUtf8CharBoundary | src/fc/detector.rs:153-160 | the skipping loop stops at the boundary the specification gives |
| Detector.WalkLt | src/fc/detector.rs:276-307 | the loop that jumps from `<` to `<` ends where the recursive scan ends, with the same depth and trigger position |
| Detector.WalkLtAt | src/fc/detector.rs:282-305 | one round of that loop moves strictly forward unless it finds the trigger, and agrees with one step of the scan |
| Detector.LtRound | src/fc/detector.rs:282-305 | at a `<`, an opening tag is skipped and deepens the block, a closing tag is skipped and leaves it (never below zero), the trigger outside blocks stops the loop, anything else moves one byte on |
| Detector.LtRoundAgrees | src/fc/detector.rs:276-307 | such a round is a round of the recursive scan |
| Detector.WalkAny | src/fc/detector.rs:308-339 | the character-by-character loop, used when the trigger does not start with `<`, ends where its recursive scan ends |
| Detector.WalkAnyAt | src/fc/detector.rs:308-339 | one round of that loop agrees with one step of its scan |
| Detector.StreamingFcDetector.constructor | src/fc/detector.rs:166-176 | a fresh detector: empty buffer, detecting, depth zero, the 512 KiB bound, and the `<` flag computed from the trigger |
| Detector.StreamingFcDetector.Feed | src/fc/detector.rs:192-205 | the new fields and the action are those of one `feed` step on the old fields |
| Detector.StreamingFcDetector.FeedOwned | src/fc/detector.rs:211-231 | the same for `feed_owned`, whose pass-through test comes before the state dispatch |
| Detector.StreamingFcDetector.Finalize | src/fc/detector.rs:234-240 | the same for `finalize` |
| Detector.StreamingFcDetector.FeedDetecting | src/fc/detector.rs:244-363 | the same for `feed_detecting` |
| Detector.StreamingFcDetector.FeedToolParsing | src/fc/detector.rs:367-407 | the same for `feed_tool_parsing` |
| Detector.DetectingKeepsText | src/fc/detector.rs:244-363 | while detecting nothing is lost or reordered: the text handed on, then the new buffer, is the old buffer then the input |
| Detector.AsWrittenScanLimitSplits | src/fc/detector.rs:277-282 | as written, a fresh detector with trigger `<Function_AB12_Start/>` fed `<` and eleven two-byte characters stops its `<` scan at byte 2, inside the first character, where the buffer's split panics; the model hands on `<` and the whole first character |
| Detector.SplitAtCharBoundary | src/fc/detector.rs:356-361 | whenever a feed in the `<` mode hands text on and keeps some back, what it keeps starts at a character boundary, as `String::split_off` demands |
| Detector.FeedOwnedIsFeed | src/fc/detector.rs:192-231 | `feed_owned` behaves exactly as `feed` on every state and input |
| Detector.OverflowFlushesAll | src/fc/detector.rs:372-390 | an overflow hands on the whole buffer with the input and empties the buffer; while detecting it resets the depth and keeps detecting, after the trigger it completes |
| Detector.DetectingOverflow | src/fc/detector.rs:261-267 | while detecting, a buffer grown past the bound always overflows |
| Detector.TriggerFoundShape | src/fc/detector.rs:342-354 | a trigger is reported only while detecting and outside any reasoning block; the state becomes tool parsing, and the text before plus the new buffer, which starts with the trigger, is the old buffer plus the input |
| Detector.HiddenInReasoning | src/fc/detector.rs:297-303 | inside an open reasoning block with no closing tag before the scan limit, the scan never reports a trigger and never leaves the block |
| Detector.DetectingTriggerIffScan | src/fc/detector.rs:244-363 | while detecting and within the bound, a trigger is reported exactly when the scan of the grown buffer finds one, and only then does the state leave detecting |
| Detector.NoLtNoTrigger | src/fc/detector.rs:249-257 | text without `<` holds no trigger that starts with `<`, which is why the pass-through shortcut is safe |
| Detector.ThinkBlockHidesTrigger | src/fc/detector.rs:297-328 | text opening with `<think>` and holding no `</` is never reported as a trigger, wherever the trigger occurs in it |
| Detector.PlainTextPassesThrough | src/fc/detector.rs:249-257 | plain text without `<` passes through a fresh detector at once, unchanged |
| Detector.TriggerAfterPlainText | src/fc/detector.rs:342-354 | plain text, the trigger and enough text after it report the trigger with the plain text before it, and the buffer keeps the trigger and the rest |
| Detector.TriggerSplitsBuffer | src/fc/detector.rs:342-354 | a trigger found at `j` splits the grown buffer there: the text before it is handed on, the rest is kept |
| Detector.ContainsSince | src/fc/detector.rs:96-101 | a pattern absent from the old buffer occurs in the grown one exactly when it occurs from `|pattern| - 1` bytes before the old end on |
| Detector.FeedKeepsInv | src/fc/detector.rs:370-374 | every feed keeps "no `<function_calls>` in the buffer while the seen flag is off", and after a buffering feed the flag tells exactly whether the buffer holds it |
| Detector.ToolParsingBuffers | src/fc/detector.rs:367-407 | after the trigger a feed only buffers unless it overflows; without `<function_calls>` in more than 4096 bytes it overflows and completes; with it, and within the bound, it buffers |
| Detector.ToolParsingCompletes | src/fc/detector.rs:392-402 | a buffering feed completes exactly when `</function_calls>` occurs from 16 bytes before the old end on, and, if the old buffer held none, exactly when the buffer holds one |
| Detector.CloseBeforeFeedNotSeen | src/fc/detector.rs:342-402 | a closing tag that arrived with the trigger chunk is never searched for again: a later feed of text without `<` keeps the detector parsing although its buffer holds the tag |
| Detector.CompletedPassesThrough | src/fc/detector.rs:193-203 | an empty chunk always gives `Buffer` and changes nothing; once completed, every non-empty chunk passes through unchanged |
| Detector.FinalizeTakesBuffer | src/fc/detector.rs:234-240 | `finalize` returns the buffer, None exactly when it is empty, and leaves it empty with nothing else changed |
| FcParser.EntityAt | src/fc/parser.rs:1320-1338 | an entity is recognised only at an `&`, and it spans at least four bytes of the text |
| FcParser.DecodeXmlEntities | src/fc/parser.rs:1310-1353 | the copying loop returns exactly the decoding of the whole text |
| FcParser.DecodePlain | src/fc/parser.rs:1312-1315 | text without `&` is returned unchanged |
| FcParser.DecodeRun | src/fc/parser.rs:1340-1350 | a run of bytes without `&` is copied as it is, in front of the decoding of the rest |
| FcParser.DecodeAmp | src/fc/parser.rs:1320-1338 | at an `&` one of the five predefined entities becomes its byte and decoding resumes after it; any other `&` is kept literally and decoding resumes one byte on |
| FcParser.DecodeStep | src/fc/parser.rs:1320-1350 | one round of the loop: the decoded `&`, then the run up to the next `&`, then the decoding of the rest |
| FcParser.DecodeEscapedByte | src/fc/parser.rs:1320-1338 | a byte escaped as one of the five entities (or left alone) decodes back to that byte |
| FcParser.DecodeEscape | src/fc/parser.rs:1310-1353 | decoding undoes escaping with the five predefined entities of section 4.6 of XML 1.0: every text comes back unchanged |
| FcParser.SectionAt | src/fc/parser.rs:1289-1303 | a section found from `from` on puts its body in front of the sections after its closer |
| FcParser.NextSection | src/fc/parser.rs:1289-1303 | one round of the loop: no opener ends it with the bodies collected so far, an opener without a closer makes the whole result absent, a section moves the cursor past its closer and appends its body |
| FcParser.CollectSections | src/fc/parser.rs:1285-1306 | the loop gives nothing without an opener, and otherwise the bodies of all sections concatenated, or nothing when a section is never closed |
| FcParser.UnwrapCdataSections | src/fc/parser.rs:1281-1307 | `unwrap_cdata` returns the text unchanged without `<![CDATA[` or with an unclosed section, and otherwise the concatenated section bodies (section 2.7 of XML 1.0) |
| FcParser.UnclosedSectionKeepsText | src/fc/parser.rs:1294-1297 | text with a CDATA opener that is never closed comes back unchanged |
| FcParser.OpenTagLen | src/fc/parser.rs:560-584 | an opener is recognised only at `<`, and its length, at least seven, fits in the text |
| FcParser.CloseTagLen | src/fc/parser.rs:586-610 | a closer is recognised only at `</`, and its length, at least eight, fits in the text |
| FcParser.OpenTagOf | src/fc/parser.rs:560-584 | each of `<think>`, `<thinking>`, `<reasoning>` and `<analysis>` is recognised with its own length, whatever follows it |
| FcParser.CloseTagOf | src/fc/parser.rs:586-610 | each of the four closers is recognised with its own length and is never taken for an opener |
| FcParser.ContainsReasoningOpenTag | src/fc/parser.rs:534-558 | true exactly when a reasoning opener starts somewhere in the text |
| FcParser.TagRound | src/fc/parser.rs:494-524 | at a `<`: an opener goes one level deeper and records where the outermost block opened; a closer inside a block goes one level up; a closer outside any block and every other `<` is kept at depth zero and dropped inside a block |
| FcParser.ThinkRound | src/fc/parser.rs:483-524 | one round of the loop (the run up to the next `<`, then that `<`) keeps exactly what the removal keeps |
| FcParser.RemoveThinkBlocks | src/fc/parser.rs:472-532 | the loop returns exactly the removal of the text's balanced reasoning blocks, an unclosed block being kept from its opener on |
| FcParser.RemoveThinkNoOpen | src/fc/parser.rs:472-475 | text without a reasoning opener is returned unchanged |
| FcParser.RemoveThinkShorter | src/fc/parser.rs:472-532 | the removal never makes the text longer |
| FcParser.BlockRemoved | src/fc/parser.rs:476-531 | a balanced block after text without `<` disappears, and the removal goes on after it |
| FcParser.NestedBlockRemoved | src/fc/parser.rs:476-531 | a block nested in another disappears with it |
| FcParser.UnclosedBlockKept | src/fc/parser.rs:526-530 | a block that is never closed is kept verbatim from its opener to the end |
| FcParser.StrayCloseKept | src/fc/parser.rs:503-508 | a closer outside any block is kept, and the removal goes on after it |
| FcParser.NormalizeCallId | src/fc/parser.rs:432-446 | an id is accepted exactly when its trimmed form has 1 to 128 bytes, all ASCII letters, digits, `_` or `-`, and then the trimmed form is returned |
| FcParser.NormalizeValid | src/fc/parser.rs:432-446 | a valid id is returned as it is |
| FcParser.NormalizeIdempotent | src/fc/parser.rs:432-446 | normalising an accepted id again changes nothing |
| FcParser.ExtractFirstCallId | src/fc/parser.rs:418-430 | an id read from the head of a block is always a valid id |
| FcParser.CallIdRoundTrip | src/fc/parser.rs:418-430 | a valid id written as `<id>id</id>` at the head of a block is read back exactly, whatever follows |
| FcParser.FindFunctionCallsBlock | src/fc/parser.rs:140-151 | a block found is `<function_calls>`, its content, `</function_calls>`, and the text holds the opener |
| FcParser.FunctionCallsBlockFound | src/fc/parser.rs:140-151 | after text without the opener, the first block and its content are found, whatever follows |
| FcParser.FunctionCallsBlockUnclosed | src/fc/parser.rs:140-151 | an opener with no closer after it gives no block |
| FcParser.SkipWs | src/fc/parser.rs:379-381 | the first position at or after `i` that is not ASCII whitespace, with only whitespace skipped |
| FcParser.AttrAt | src/fc/parser.rs:370-403 | a value is found only for a name standing alone (no attribute character on either side), followed by `=` and a quote, the value running to the same quote and containing none |
| FcParser.QuotedAfter | src/fc/parser.rs:387-400 | after the `=`, a value lies between a quote and the next copy of that quote |
| FcParser.AttrFromFound | src/fc/parser.rs:365-405 | a value returned is the trimmed value of some standalone occurrence of the name |
| FcParser.SkipWhitespace | src/fc/parser.rs:379-389 | the whitespace loop stops where `SkipWs` says |
| FcParser.AttrRound | src/fc/parser.rs:370-386 | one occurrence is judged as `AttrAt` judges it |
| FcParser.QuotedRound | src/fc/parser.rs:386-402 | the quoted-value part of a round is judged as `QuotedAfter` judges it |
| FcParser.AttrSearchRound | src/fc/parser.rs:367-404 | a round either ends the search with its answer or moves strictly forward without changing it |
| FcParser.ExtractAttrAscii | src/fc/parser.rs:365-405 | the search returns exactly the trimmed value of the first qualifying occurrence, and nothing when the text runs out or a quote is never closed |
| FcParser.AttrValueFound | src/fc/parser.rs:365-405 | the first occurrence of a name written `name="v"` (or with `'`) yields `v` trimmed |
| FcParser.RFindSpec | src/fc/parser.rs:86 | the reverse search finds a match, and the last one ending before the bound, and finds nothing only when there is none |
| FcParser.BlockSearch | src/fc/parser.rs:83-99 | a trigger chosen is followed, within the bound, by a `<function_calls>` block |
| FcParser.BlockSearchFindsTrigger | src/fc/parser.rs:83-99 | what the search chooses is an occurrence of the trigger |
| FcParser.FindTrigger | src/fc/parser.rs:83-99 | the loop returns the trigger the search chooses and the last trigger of the text |
| FcParser.LastTriggerUsed | src/fc/parser.rs:83-99 | the last trigger is chosen when a block follows it, whatever triggers and blocks come before it |
| FcParser.KindLabel | src/fc/parser.rs:1523-1533 | the label is one of the six JSON kinds, and it is `object` exactly for an object |
| FcParser.FirstInvalid | src/fc/parser.rs:123-134 | no error exactly when every call has a name and an object of arguments; an error is the empty name or the non-object arguments of a named call |
| FcParser.ValidateCalls | src/fc/parser.rs:123-134 | the validation loop reports the error of the first call that fails |
| FcParser.ParseSpec | src/fc/parser.rs:66-137 | empty text or an empty trigger is an error; a success holds at least one call, each with a name and an object of arguments |
| FcParser.ParseFunctionCalls | src/fc/parser.rs:66-137 | the parse strips reasoning blocks, searches the cleaned text for the trigger, runs the tiers on the block or the tail and validates, as `ParseSpec` says |
| FcParser.ParseNeedsTrigger | src/fc/parser.rs:101-103 | without a trigger outside reasoning blocks the parse fails with the missing-trigger error |
| FcParser.ParseUsesLastBlock | src/fc/parser.rs:83-114 | the block after the last trigger is what the fast tier reads, and its well-formed calls are the answer |
| FcParser.CoerceJsonValue | src/fc/parser.rs:1451-1471 | the value is the text itself unless the trimmed text starts like a JSON value other than a string and parses, and then it is that parse |
| FcParser.QuotedParameterKept | src/fc/parser.rs:1464-1471 | a parameter whose trimmed text starts with `"` stays the text, quotes included |
| FcParser.ParseArgsOrEmpty | src/fc/parser.rs:1483-1521 | the arguments always come with a text; they are the empty object, or the parse of a non-empty text |
| FcParser.EscapedArgsDecoded | src/fc/parser.rs:1501-1519 | arguments escaped as XML text are decoded and then parsed |
| Detector.StreamingFcDetector.Settle | src/fc/detector.rs:342-362 | the end of `feed_detecting`: the new fields and action are those of the scan's outcome, a trigger splitting the buffer there, a scan position handing on the text before it, and nothing scanned buffering |
| FcPreprocess.WrapCdata | src/fc/preprocess.rs:29-33 | the result opens with `<![CDATA[` and closes with `]]>`; a text without `]]>` is wrapped as it is |
| FcPreprocess.WrapCdataIsWrap | src/fc/preprocess.rs:29-33 | replacing every `]]>` and wrapping is the general wrap with the CDATA markers |
| FcPreprocess.SectionsOfWrapped | src/fc/preprocess.rs:29-33 | reading the CDATA sections from where a wrapped text starts gives back the text |
| FcPreprocess.WrapCdataRoundTrip | src/fc/preprocess.rs:29-33 | unwrapping what `wrap_cdata` produced gives back the text, whatever `]]>` or `<![CDATA[` it holds |
| FcPreprocess.CallsOf | src/fc/preprocess.rs:15-23 | at most one call record per part |
| FcPreprocess.IndexOfLastWins | src/fc/preprocess.rs:9-26 | an id is in the index exactly when some call has it, and it maps to the name and arguments of the last call with that id |
| FcPreprocess.InsertCalls | src/fc/preprocess.rs:15-23 | the calls of one message are inserted in part order |
| FcPreprocess.BuildToolCallIndex | src/fc/preprocess.rs:9-26 | the index is that of the assistant messages' calls, in conversation order |
| FcPreprocess.AssistantCallsSkipOthers | src/fc/preprocess.rs:12-14 | only assistant messages feed the index |
| FcPreprocess.TextLikeAppend | src/fc/preprocess.rs:166-178 | the text of two runs of parts is the two texts joined |
| FcPreprocess.CollectTextLikeParts | src/fc/preprocess.rs:166-178 | the loop gives the text parts, and the tool results when asked, joined in order |
| FcPreprocess.Preprocessed | src/fc/preprocess.rs:52-163 | one message out per message in |
| FcPreprocess.PreprocessMessagesOwned | src/fc/preprocess.rs:52-163 | every message is rewritten against the index of the whole conversation, in order |
| FcPreprocess.ToolMessageBecomesUser | src/fc/preprocess.rs:63-96 | a tool message becomes a user message with one text part; its name, call id and extensions are cleared |
| FcPreprocess.ToolResultUnknownCall | src/fc/preprocess.rs:66-87 | a tool result whose id no call carries names the tool `unknown` with arguments `{}` |
| FcPreprocess.ToolResultKnownCall | src/fc/preprocess.rs:66-87 | a tool result takes the name and arguments of the last call in the conversation with its id |
| FcPreprocess.PassThroughUnchanged | src/fc/preprocess.rs:98-162 | a message is left unchanged exactly when it is a system or user message, or an assistant message without tool calls |
| FcPreprocess.AssistantCallsBecomeXml | src/fc/preprocess.rs:98-151 | an assistant message with tool calls becomes one trimmed text part holding its text, the trigger and the calls' XML; its role and name are kept, its call id and extensions cleared |
| FcPreprocess.CallsXmlAppend | src/fc/preprocess.rs:113-132 | the calls' XML lists the calls in part order, one block and a newline each |
| FcPreprocess.CallXmlArgumentsRoundTrip | src/fc/preprocess.rs:121-129 | a call block holds the CDATA section of its arguments, which gives the arguments back byte for byte |
| FcInject.ResponseFormatIsJsonMode | src/fc/inject.rs:90-104 | only a mode name, or an object whose `type` is a string, can be a JSON mode |
| FcInject.JsonModeIgnoresCase | src/fc/inject.rs:90-104 | the mode names `json_object` and `json_schema` are recognised in any ASCII case, bare or as an object's `type` |
| FcInject.ResponsesTextFormatIsJsonMode | src/fc/inject.rs:106-112 | only an object's `format` can make `text` a JSON mode |
| FcInject.PrefersStructuredOutput | src/fc/inject.rs:70-88 | only the OpenAI Chat and Responses ingresses can prefer structured output |
| FcInject.JoinedSystemPrompt | src/fc/inject.rs:56-59 | the generated prompt alone when there was no system prompt; otherwise the old prompt, a newline and the generated prompt |
| FcInject.InjectOutcomeShape | src/fc/inject.rs:37-66 | a request preferring structured output or with tool choice none is left alone with no tools taken; otherwise the tools are removed and handed back exactly on success, the tool choice becomes none, the messages keep their number, and the outcome is an error exactly when the prompt cannot be generated |
| FcInject.InjectIdempotent | src/fc/inject.rs:37-66 | a request injected once is left alone by a second injection |
| FcInject.InjectedPromptNamesTools | src/fc/inject.rs:50-59 | after a successful injection the system prompt names every tool taken (for a custom template, when it has the tool-list placeholder) |
| FcInject.InjectedPromptCarriesTrigger | src/fc/inject.rs:50-59 | after a successful injection the system prompt holds the trigger signal (for a custom template, when it has the trigger placeholder) |
| FcInject.ApplyFcInjectTakeTools | src/fc/inject.rs:37-66 | skips as `InjectOutcome` does; an error leaves the request only without tools; a success hands the tools back and leaves the request with the joined system prompt, the preprocessed messages, no tools and tool choice none; with a faithful prompt cache the outcome is exactly `InjectOutcome` |
| FcPrompt.AlnumIndex | src/fc/prompt.rs:13 | every ASCII letter or digit has a position below 62 in the trigger alphabet, and that position holds it |
| FcPrompt.TriggerSignal | src/fc/prompt.rs:12-21 | four draws from the 62-letter alphabet always give a signal of the shape `<Function_XXXX_Start/>` |
| FcPrompt.EveryTriggerShapeIsDrawn | src/fc/prompt.rs:12-21 | every string of that shape is the signal of some four draws, so the shape is exactly the set of possible signals |
| FcPrompt.TriggerSignalBytes | src/fc/prompt.rs:12-21 | a signal starts with `<` and holds no `{`, so it can never open a template placeholder |
| FcPrompt.RequiredStrings | src/fc/prompt.rs:254-276 | a `required` list is accepted exactly when all its entries are strings, keeping them in order; otherwise the error is a non-string entry |
| FcPrompt.RequiredStringsReportsFirst | src/fc/prompt.rs:258-268 | the entry reported is the first that is not a string |
| FcPrompt.MissingKeys | src/fc/prompt.rs:280-284 | the missing-name list is never longer than the `required` list |
| FcPrompt.MissingKeysMeaning | src/fc/prompt.rs:280-284 | a name is missing exactly when it is required and `properties` is absent or does not define it |
| FcPrompt.CheckToolAcceptsExactly | src/fc/prompt.rs:241-289 | a tool passes its checks exactly when its `properties` is absent, null or an object, its `required` is absent, null or a list of strings, and every required name is a property |
| FcPrompt.MissingRequiredNamesUndeclared | src/fc/prompt.rs:285-289 | a missing-name error comes only after both members passed, names the tool, and lists exactly the undeclared required names (at least one) |
| FcPrompt.RenderedBlocksInOrder | src/fc/prompt.rs:233-352 | a rendered list has one block per tool, the i-th rendered from the i-th tool with its position |
| FcPrompt.RenderedBlocksFirstError | src/fc/prompt.rs:233-352 | a failing list reports the error of the first tool that fails, every earlier tool having passed |
| FcPrompt.RenderedBlocksOkIff | src/fc/prompt.rs:233-352 | the list renders exactly when every tool passes its checks |
| FcPrompt.RenderedPrefixFails | src/fc/prompt.rs:233-352 | once the first n tools fail, adding more tools cannot change the error |
| FcPrompt.FormatToolsList | src/fc/prompt.rs:230-353 | the loop returns exactly the joined tool blocks, or the first tool's error |
| FcPrompt.GenerateUncached | src/fc/prompt.rs:522-558 | the result is exactly the template filled in and followed by the tool-choice constraint, or the tool list's error |
| FcPrompt.UncachedPromptFails | src/fc/prompt.rs:522-530 | a prompt is produced exactly when every tool passes its checks; otherwise the error is the first failing tool's |
| FcPrompt.PromptHonoursChoice | src/fc/prompt.rs:541-556 | `auto` leaves the filled template as it is; `none`, `required` and a specific choice end the prompt with their constraint, and a specific choice ends it with the function's name |
| FcPrompt.DefaultPromptShape | src/fc/prompt.rs:370-446 | the default template's head holds no placeholder, so the tool list follows it directly |
| FcPrompt.PromptContainsToolsList | src/fc/prompt.rs:531-539 | the prompt body holds the tool list whenever the template has `{tools_list}` (the default one always does) |
| FcPrompt.PromptContainsTrigger | src/fc/prompt.rs:531-539 | the prompt body holds the trigger signal whenever the template has `{trigger_signal}` (the default one always does) |
| FcPrompt.TriggerSubstitutedFirst | src/fc/prompt.rs:533-537 | the trigger is substituted before the tool list, so a `{trigger_signal}` inside a tool's text reaches the prompt unchanged |
| FcPrompt.BlockNamesTool | src/fc/prompt.rs:339-348 | a tool's block holds the tag `<tool name="…">` naming it |
| FcPrompt.PromptNamesEveryTool | src/fc/prompt.rs:522-558 | every generated prompt names every tool, whatever the tool choice, provided a custom template has the tool-list placeholder |
| FcPrompt.NewestMeaning | src/fc/prompt.rs:68-83 | the lookup finds an entry for the key with no newer entry for it, and finds nothing only when no entry has the key |
| FcPrompt.Oldest | src/fc/prompt.rs:92-96 | the position found is the first entry with the key; none is found only when no entry has it |
| FcPrompt.NewestOfUnique | src/fc/prompt.rs:68-83 | in a cache with unique keys, a key finds the artifacts of its own entry |
| FcPrompt.InsertedStaysValid | src/fc/prompt.rs:85-113 | an insert keeps the cache within 64 entries and its keys unique |
| FcPrompt.GetAfterInsert | src/fc/prompt.rs:85-113 | after an insert the key finds the new artifacts |
| FcPrompt.InsertLeavesOthers | src/fc/prompt.rs:85-113 | an insert changes what no other key finds, except the oldest entry's key when a full cache without the key has to make room |
| FcPrompt.InsertAtCapacityEvictsOldest | src/fc/prompt.rs:100-102 | a full cache without the key drops its front entry and appends the new one, and the dropped key then finds nothing |
| FcPrompt.ReinsertMovesToBack | src/fc/prompt.rs:92-98 | inserting a cached key removes its entry and appends the new one at the back, evicting nothing |
| FcPrompt.Generated | src/fc/prompt.rs:470-486 | artifacts are produced exactly when the uncached prompt is, and their system-message JSON is the encoding of the prompt |
| FcPrompt.PromptCache.constructor | src/fc/prompt.rs:62-66 | a new cache is empty |
| FcPrompt.PromptCache.Get | src/fc/prompt.rs:68-83 | the lookup finds nothing exactly when no entry has the key, and otherwise the artifacts of an entry for it |
| FcPrompt.PromptCache.Insert | src/fc/prompt.rs:85-113 | the entries become the remove-then-evict-then-append sequence, validity is kept and the key then finds the new artifacts |
| FcPrompt.PromptCache.GenerateArtifacts | src/fc/prompt.rs:460-485 | a hit returns the cached artifacts and leaves the cache alone; a miss returns what generation gives and caches it only on success; a cache holding only generated artifacts stays so and always returns what generation gives |
| FcPrompt.PromptCache.GeneratePrompt | src/fc/prompt.rs:510-520 | with a cache holding only generated artifacts, the prompt returned is exactly the uncached prompt |
| FcPostprocess.AssignedIds | src/fc/postprocess.rs:117-120 | every call gets one id |
| FcPostprocess.AssignedIdsMeaning | src/fc/postprocess.rs:117-120 | a call with a parsed id keeps it; a call without one gets a fresh `call_` id of 21 bytes; the counter moves only when an id is drawn |
| FcPostprocess.FreshIdsDistinct | src/fc/postprocess.rs:117-120 | ids drawn for two calls differ and rise in call order, as long as the counter does not wrap between them |
| FcPostprocess.ToolPartsNamed | src/fc/postprocess.rs:40-71 | one tool-call part per call, in order, with the call's name |
| FcPostprocess.DrawId | src/fc/postprocess.rs:49 | the id drawn is the fresh id for the counter's value, and the counter moves on by one, wrapping at 2^64 |
| FcPostprocess.ConvertCalls | src/fc/postprocess.rs:116-120 | the parts are those of `ToolParts` with the ids `AssignedIds` gives, and the counter ends where it says |
| FcPostprocess.TextBefore | src/fc/postprocess.rs:122-129 | the text before the trigger, trimmed, is given only when it is not empty, is part of that text and has no whitespace at either end; nothing is given when that text is all whitespace |
| FcPostprocess.ProcessSpecMeaning | src/fc/postprocess.rs:85-135 | no tool calls exactly when the text lacks the trigger; a failure keeps the original text and reports the trigger found; tool calls found are at least one, each naming a declared tool |
| FcPostprocess.ProcessFcResponse | src/fc/postprocess.rs:85-135 | the result and the counter are those of `ProcessSpec` |
| FcPostprocess.TextParts | src/fc/postprocess.rs:140-148 | at most one text per part |
| FcPostprocess.ResponseTextAppend | src/fc/postprocess.rs:140-148 | the response text of two runs of parts is the two texts joined; a part adds its text when it is text and nothing otherwise |
| FcPostprocess.ExtractResponseText | src/fc/postprocess.rs:140-148 | the loop gives the texts of the text parts joined in order |
| FcPostprocess.ResponseTextContainsTrigger | src/fc/postprocess.rs:211-229 | true exactly when the trigger is not empty and occurs in the bytes |
| FcPostprocess.WindowSearch | src/fc/postprocess.rs:183-199 | when the old text lacks the trigger, searching only the window from `trigger length - 1` bytes before the join finds the trigger exactly when the whole text holds it |
| FcPostprocess.AppendAndSearch | src/fc/postprocess.rs:183-199 | one more part appended keeps the found flag equal to whether the merged text holds the trigger |
| FcPostprocess.ExtractResponseTextIfTrigger | src/fc/postprocess.rs:155-208 | the response text is given exactly when the trigger occurs in it, even across two parts, and it is the whole response text |
| FcPostprocess.PostprocessAgreesWithProcess | src/fc/postprocess.rs:240-285 | the one-shot path rewrites the response exactly when `ProcessSpec` finds tool calls, to the trimmed text before the trigger and the tool parts with stop reason tool calls, and leaves it alone otherwise; both draw the same ids |
| FcPostprocess.ApplyFcPostprocessOnce | src/fc/postprocess.rs:240-285 | the response and the counter after the call are those of `PostprocessOnceSpec` |
| Validator.JsonTypeName | src/fc/validator.rs:580-594 | the type name reported is one of the seven names `null`, `boolean`, `integer`, `number`, `string`, `array`, `object` |
| Validator.TypeOkMeaning | src/fc/validator.rs:566-578 | every value has the type it is reported as; a known type name accepts exactly the values of that type, `number` also taking integers; an unknown name accepts everything |
| Validator.ValidateValue | src/fc/validator.rs:173-182 | below depth 8 nothing is checked any more, so a schema nested deeper reports no error |
| Validator.ErrorsBelowPath | src/fc/validator.rs:173-213 | every error is reported at the path given or below it, each sub-schema reporting under its own path |
| Validator.EmptySchemaAcceptsAll | src/fc/validator.rs:173-213 | the empty schema accepts every value |
| Validator.ConstSchema | src/fc/validator.rs:282-290 | `{"const": c}` accepts exactly `c` and otherwise reports one mismatch at the value's path |
| Validator.EnumSchema | src/fc/validator.rs:292-302 | `{"enum": [...]}` accepts exactly the listed values and otherwise reports one mismatch |
| Validator.TypeSchema | src/fc/validator.rs:335-350 | `{"type": t}` accepts exactly the values of type `t` and otherwise reports the value's own type |
| Validator.TypeUnionSchema | src/fc/validator.rs:351-368 | `{"type": [...]}` accepts exactly the values of some listed type name; entries that are not strings name no type |
| Validator.CombinatorsDecide | src/fc/validator.rs:192-194 | when a combinator applies, its verdict is the verdict of the whole schema |
| Validator.AllOfSchema | src/fc/validator.rs:221-234 | `allOf` decides alone: the value is accepted exactly when every sub-schema accepts it at its own `allOf[i]` path |
| Validator.AnyOfSchema | src/fc/validator.rs:236-251 | without `allOf`, `anyOf` decides alone: the value is accepted exactly when some option accepts it |
| Validator.OneOfSchema | src/fc/validator.rs:253-272 | without `allOf` and `anyOf`, `oneOf` decides alone: the value is accepted exactly when exactly one option accepts it |
| Validator.OneEmptyIsOneAccepts | src/fc/validator.rs:253-272 | counting the options with no error finds one exactly when exactly one option accepts |
| Validator.MissingKeysMeaning | src/fc/validator.rs:492-504 | no key is reported exactly when every string in `required` is a member; each report names a required string that is not a member |
| Validator.RequiredSchema | src/fc/validator.rs:313-333 | `{"required": [...]}` checks an object for the required keys alone, and rejects any other value as not an object |
| Validator.ClosedObjectSchema | src/fc/validator.rs:506-535 | with `additionalProperties: false`, an object is accepted exactly when each member is a property whose schema accepts it, and each other member is reported |
| Validator.ItemsSchema | src/fc/validator.rs:538-564 | `{"items": {...}}` accepts an array exactly when the item schema accepts every element at its own index path |
| Validator.LengthSchema | src/fc/validator.rs:372-405 | `minLength` and `maxLength` accept exactly the strings whose byte length lies between them |
| Validator.PatternSchema | src/fc/validator.rs:406-420 | `pattern` rejects a string exactly when the compiled pattern fails to match it; a pattern that does not compile checks nothing |
| Validator.BoundsSchema | src/fc/validator.rs:436-473 | `minimum` and `maximum` accept exactly the numbers between them, compared as 64-bit floats |
| Validator.PermissiveIntendedSound | src/fc/validator.rs:81-122 | a schema the intended shortcut takes accepts every object, so skipping `validate_value` for it changes nothing |
| Validator.PermissiveAsWrittenSkipsTypeArray | src/fc/validator.rs:85-90 | as written the shortcut also takes `{"type": ["string"]}`, which `validate_value` uses to reject every object |
| Validator.FindToolIsFirst | src/fc/validator.rs:45-48 | the tool found is the first tool with the name, in both the single-tool and many-tool cases, and none is found exactly when no tool has the name |
| Validator.ValidateToolCall | src/fc/validator.rs:40-78 | with the shortcut as intended, a rejected call always carries at least one error |
| Validator.ValidateToolCallMeaning | src/fc/validator.rs:40-78 | an unknown tool is reported with all tool names; a call is accepted exactly when its tool exists, its arguments are an object and the tool's schema accepts them; every error lies under the tool's name |
| Validator.IntendedShortcutExact | src/fc/validator.rs:67-70 | with the intended shortcut a call's verdict is the verdict of running `validate_value` on every call |
| Validator.AsWrittenShortcutAcceptsRejected | src/fc/validator.rs:67-70 | as written, a tool with parameters `{"type": ["string"]}` accepts `{}`, which `validate_value` rejects with a type mismatch |
| Validator.CallsVerdictOk | src/fc/validator.rs:131-151 | a batch is accepted exactly when every call in it is accepted |
| Validator.ValidateToolCalls | src/fc/validator.rs:131-151 | the loop returns acceptance when no call has an error, and otherwise all calls' errors in call order |
| Validator.ValidateParserToolCalls | src/fc/validator.rs:153-171 | the parser's calls get the same verdict as the same calls given to `validate_tool_calls` |
| ResponsesFc.ToolsTokenHasFunction | src/api/ingress/openai_responses/fc.rs:10-26 | a tools token that does not parse counts as having a function tool; a parsed one has one exactly when some entry's `type` is `function` |
| ResponsesFc.AnyFunctionType | src/api/ingress/openai_responses/fc.rs:21-25 | true exactly when some entry's `type` is `function` |
| ResponsesFc.DecodeToolChoice | src/api/ingress/openai_responses/fc.rs:107-162 | no choice is auto; `none` exactly from the string `none`; required exactly from the string `required` or a required `allowed_tools` without a single function; a specific choice only from a required `allowed_tools` listing exactly that one function or a `function` object naming it |
| ResponsesFc.AllowedSingleFunction | src/api/ingress/openai_responses/fc.rs:119-141 | a required `allowed_tools` listing one function names it; listing two tools only requires a call |
| ResponsesFc.FunctionSpecs | src/api/ingress/openai_responses/fc.rs:173-186 | there are never more specs than tools |
| ResponsesFc.BuiltinTools | src/api/ingress/openai_responses/fc.rs:187 | the passed-through tools are all built-in tools, and never more than the tools given |
| ResponsesFc.Partition | src/api/ingress/openai_responses/fc.rs:164-193 | every tool lands in exactly one of the two groups; there is no spec exactly when every tool is built-in, and then all tools pass through |
| ResponsesFc.DecodeTools | src/api/ingress/openai_responses/fc.rs:164-193 | the loop returns the function tools as canonical specs and the other tools, each group in the original order |
| ResponsesFc.CallsIn | src/api/ingress/openai_responses/fc.rs:202-223 | every call the index is built from has a non-empty id |
| ResponsesFc.BuildCallIndex | src/api/ingress/openai_responses/fc.rs:201-223 | the loop's map is the index of the calls in order, so a repeated id keeps its last call |
| ResponsesFc.TransformItem | src/api/ingress/openai_responses/fc.rs:227-316 | an item fails exactly when it is an object of an unknown type, with an error naming the type; exactly the non-objects are dropped |
| ResponsesFc.TransformedOutcome | src/api/ingress/openai_responses/fc.rs:227-319 | the rewrite fails exactly when some object item has an unknown type, reporting the first; otherwise one item comes out per object item |
| ResponsesFc.ErrorSticks | src/api/ingress/openai_responses/fc.rs:310-315 | an error among the first items is the error of the whole rewrite |
| ResponsesFc.PreprocessInput | src/api/ingress/openai_responses/fc.rs:195-325 | the method returns exactly the rewritten input or its error |
| ResponsesFc.InputRejected | src/api/ingress/openai_responses/fc.rs:195-325 | the input is rejected exactly when it is neither a string nor an array, or an object item has an unknown type |
| ResponsesFc.OutputNamesItsCall | src/api/ingress/openai_responses/fc.rs:277-308 | a call output names the last call with its id and that call's arguments, or `unknown` with `{}` when no call has the id |
| ResponsesFc.CallTextKeepsArguments | src/api/ingress/openai_responses/fc.rs:239-276 | a replayed call starts with the trigger signal and carries its arguments byte for byte in a CDATA section the parser unwraps back to them |
| ResponsesFc.ApplyFcInject | src/api/ingress/openai_responses/fc.rs:28-69 | the method's result and new request are exactly the injection outcome |
| ResponsesFc.InjectShape | src/api/ingress/openai_responses/fc.rs:28-69 | extra fields never change; structured output or `none` leaves the request alone; without function tools only the tools change; a success hands back exactly the function tools, clears the tool choice, keeps only built-in tools and puts the old instructions in front of the prompt |
| ResponsesFc.InjectIdempotent | src/api/ingress/openai_responses/fc.rs:28-69 | injecting into a request injection already handled changes nothing and takes no tools |
| Transcoder.IsPassthrough | src/stream/transcoder.rs:415-425 | raw bytes are forwarded exactly for the four upstream/client pairs that speak the same dialect |
| Transcoder.PassthroughPerDialect | src/stream/transcoder.rs:415-425 | every client dialect has an upstream it can be streamed from untouched, and an upstream is passthrough for one client dialect only |
| Transcoder.ClientEventRoute | src/stream/transcoder.rs:334-397 | only the Anthropic and Responses clients skip events or send a precomputed `Done`; Anthropic skips only usage, Responses only usage, end of message and reasoning text |
| Transcoder.UsageReachesEmittingClients | src/stream/transcoder.rs:909-911 | a usage event reaches a client encoder exactly for the dialects `emits_usage_event` names |
| Transcoder.ResponsesDropsStopAndReasoning | src/stream/transcoder.rs:368-376 | the Responses client never gets an end of message or reasoning text as its own event; the Anthropic client's encoder gets both |
| Transcoder.DecodeRawFrame | src/stream/transcoder.rs:667-674 | a frame that decodes is kept as decoded; a frame that does not is tried once more with `\n\n` appended, and only when it lacked a terminator |
| Transcoder.RetriedFrameTerminated | src/stream/transcoder.rs:2062-2064 | the retried frame is terminated, so the retry happens at most once, and the frame parser finds its payload end |
| Transcoder.TerminatedHasPayloadEnd | src/stream/transcoder.rs:2062-2064 | a frame is terminated exactly when the frame parser finds a payload end in it |
| Transcoder.ParseResponsesEventType | src/stream/transcoder.rs:1646-1662 | a known event type is only read from its own name |
| Transcoder.EventTypeNameParses | src/stream/transcoder.rs:1646-1662 | every known event type is read back from its name, so the names of distinct types differ |
| Transcoder.U64AfterKeyIn | src/stream/transcoder.rs:2032-2059 | a number is only read when the key occurs in the window |
| Transcoder.ReadU64Digits | src/stream/transcoder.rs:2044-2058 | the digit loop with its overflow guard returns what `U64Digits` says |
| Transcoder.ParseU64AfterKeyIn | src/stream/transcoder.rs:2032-2059 | the bounded reader returns what `U64AfterKeyIn` says |
| Transcoder.ParseU64AfterKey | src/stream/transcoder.rs:2154-2177 | the unbounded reader is the bounded one over the whole text |
| Transcoder.ReadsWrittenNumber | src/stream/transcoder.rs:2032-2059 | a decimal written after the first key and optional whitespace is read back exactly when it fits in a `u64`, and gives None when it does not |
| Transcoder.NoNumberAt | src/stream/transcoder.rs:2043-2058 | when the first key is followed by whitespace and then neither a digit nor the end, nothing is read |
| Transcoder.ReadsOnlyWindow | src/stream/transcoder.rs:2032-2059 | the bounded reader's answer depends only on the bytes before the end of the window |
| Streaming.PendingBytes.WithCapacity | src/api/common/streaming.rs:183-187 | a new queue holds nothing |
| Streaming.PendingBytes.PopFront | src/api/common/streaming.rs:190-202 | an empty queue gives nothing; otherwise the oldest chunk is taken and the rest stay queued in order |
| Streaming.PendingBytes.ExtendFromBytes | src/api/common/streaming.rs:204-210 | the new chunks are queued after the old ones, in order, and the input is left drained |
| Streaming.DrainedIsReset | src/api/common/streaming.rs:190-202 | a queue with nothing left in it has been cleared and its head reset |
| Streaming.EmitFromByteChunks | src/api/common/streaming.rs:24-36 | no chunk gives nothing; one chunk is emitted directly; more are queued and the oldest queued chunk is emitted; from an empty queue, the chunk emitted followed by the queue is the input, in order |
| Streaming.OpenAiRawSseDataBounds | src/api/common/streaming.rs:44-65 | bounds are only given for a terminated frame starting with `data:`; the value starts after the field name and its optional space and ends where the terminator starts |
| Streaming.TerminatorAfterPayload | src/api/common/streaming.rs:45-51 | the byte at the end of the payload is a CR or LF, so the optional space after `data:` is never read past the end |
| Streaming.OpenAiRawSseDataBytes | src/api/common/streaming.rs:67-71 | the value read holds no CR and no LF |
| Streaming.DataBytesAgree | src/api/common/streaming.rs:44-71 | the raw reader succeeds exactly when the data-only fast path of the frame parser does, and gives the same data |
| Streaming.FrameMightStartFc | src/api/common/streaming.rs:88-100 | a frame with parsed data is only flagged when the data holds a `<`; any flagged frame holds `<function_calls>` or the trigger in its data, or in its raw bytes when nothing was parsed |
| Streaming.LtPrefilterIsExact | src/api/common/streaming.rs:88-100 | when the trigger holds a `<`, the prefilter on parsed data is exactly whether the data holds either pattern |
| Streaming.LtPrefilterNeedsLtInTrigger | src/api/common/streaming.rs:88-100 | without a `<` in the trigger the prefilter rejects data `X` that holds the trigger `X` |
| FcStream.CallId | src/stream/mod.rs:745-746 | a call keeps the id the parser read; a call without one gets an id starting with `call_` |
| FcStream.CallTriple | src/stream/mod.rs:748-767 | one call becomes exactly three events |
| FcStream.CallTripleShape | src/stream/mod.rs:745-767 | the three events are a start with the index, the id and the call's name, the arguments delta (the raw JSON text when the parser kept it) and an end with no id or name, all under the same index |
| FcStream.CallEventsShape | src/stream/mod.rs:732-770 | the calls give three events each, in order: call `k` is events `3k` to `3k+2` under index `index + k`, and the index ends up moved on by the number of calls |
| FcStream.CallEventsAt | src/stream/mod.rs:738-770 | call `k` of the run is the start, arguments and end at events `3k` to `3k+2` |
| FcStream.CallEventsKinds | src/stream/mod.rs:738-770 | the per-call events are only starts, argument deltas and ends: no end of message and no `Done` |
| FcStream.EventStep | src/stream/mod.rs:395-458 | one decoded event keeps the processor's flags coherent (termination synthesised exactly while function calling is on, a stop held only then) and never turns function calling back on |
| FcStream.EventsStep | src/stream/mod.rs:394-459 | a whole frame keeps the flags coherent and never turns function calling back on |
| FcStream.OverflowDisables | src/stream/mod.rs:420-432 | a buffer overflow sends the whole buffer and the new text as one text delta, empties the buffer and turns function calling, synthesised termination and the held stop off |
| FcStream.DisabledPassesThrough | src/stream/mod.rs:445-458 | with function calling off, every decoded event reaches the encoder unchanged and the state does not change |
| FcStream.TerminationHeldBack | src/stream/mod.rs:435-444 | while function calling stays on, no upstream end of message and no `Done` reach the client, and the stop reason held is that of the last upstream end of message |
| FcStream.FinalizeSpec | src/stream/mod.rs:561-635 | the end of the stream always empties the detector's buffer and changes no flag |
| FcStream.FinalizeOnlyFlushes | src/stream/mod.rs:566-576 | without synthesised termination, only the leftover buffer goes out, as text, and the tool-call index and the call-id counter stay |
| FcStream.FinalizeTerminates | src/stream/mod.rs:578-635 | with synthesised termination the output ends with exactly one end of message followed by `Done`, with none before; either the parsed calls' events and `ToolCalls` (only after a trigger, from a successful parse), or the leftover text and the held stop reason (`EndOfTurn` when none was held) |
| FcStream.FinalOutputEndsWithDone | src/stream/mod.rs:630-634 | with synthesised termination the client's output for the end of the stream ends with the encoded `Done` |
| FcStream.StreamingFcProcessor.constructor | src/stream/mod.rs:252-268 | a fresh detector for the trigger, function calling and synthesised termination both set to the flag, no held stop, index 0 |
| FcStream.StreamingFcProcessor.ProcessEvent | src/stream/mod.rs:395-458 | one event changes the processor as `EventStep` says and appends the encodings of the events it lets through |
| FcStream.StreamingFcProcessor.FeedText | src/stream/mod.rs:396-433 | a text delta while function calling is on goes through the detector as `EventStep` says, the overflow turning the flags off |
| FcStream.StreamingFcProcessor.ProcessDecodedEvents | src/stream/mod.rs:388-460 | the output is cleared and then holds the encodings of what `EventsStep` lets through, and the processor is in the state `EventsStep` gives |
| FcStream.StreamingFcProcessor.TryProcessRawFrame | src/stream/mod.rs:292-303 | reports false exactly when the frame cannot be decoded, leaving output and state as they were; otherwise processes the decoded events |
| FcStream.StreamingFcProcessor.EmitCall | src/stream/mod.rs:744-770 | one call appends its three events under the current index with the parser's id or the next counter id, and moves the index on by one; the counter moves only when it was drawn |
| FcStream.StreamingFcProcessor.EmitParsedToolCalls | src/stream/mod.rs:732-777 | the events of every call as `CallEvents` gives them, then one end of message with `ToolCalls`; the index and the counter end where `CallEvents` says |
| FcStream.StreamingFcProcessor.CloseMessage | src/stream/mod.rs:578-634 | the synthesised ending is `Closing` of the parse outcome: the calls when they parsed after a trigger, the text and the held stop otherwise |
| FcStream.StreamingFcProcessor.CloseWithCalls | src/stream/mod.rs:585-587 | the calls' events, an end of message with `ToolCalls`, then `Done` |
| FcStream.StreamingFcProcessor.CloseWithText | src/stream/mod.rs:588-627 | the leftover text when not empty, the held end of message, then `Done` |
| FcStream.StreamingFcProcessor.FinalizeInto | src/stream/mod.rs:561-635 | the new state, index, counter and output are those of `FinalizeSpec` for the parse of the leftover buffer, which is parsed only after a trigger |
| AnthropicStream.UsageOf | src/protocol/anthropic/stream.rs:101-106 | both counts are kept and the total is always given, as their sum |
| AnthropicStream.Decode | src/protocol/anthropic/stream.rs:40-124 | a message start gives an assistant start, then usage exactly when a count is non-zero; a message delta gives usage, then the mapped message end exactly when there is a stop reason; a block stop and a ping give nothing; a message stop gives `Done`; an error gives status 500; an empty text or thinking block gives nothing |
| AnthropicStream.DecodeNeverEndsToolCall | src/protocol/anthropic/stream.rs:87-90 | stateless decoding never closes a tool call |
| AnthropicStream.StopReasonRoundTrip | src/protocol/anthropic/stream.rs:99-111 | a stop reason encoded for the wire and decoded again comes back, content filtering as the end of the turn, after the usage |
| AnthropicStream.Record | src/protocol/anthropic/stream.rs:258-261 | the table grows to hold the index when it is too short, the index gets the block's kind, and every other slot keeps its kind or is empty when new |
| AnthropicStream.Take | src/protocol/anthropic/stream.rs:264 | the table keeps its length, the slot taken is emptied and returned (nothing when beyond the table), and no other slot changes |
| AnthropicStream.DecodeStep | src/protocol/anthropic/stream.rs:242-276 | a block start records its kind and decodes as usual; a block stop empties its slot and closes a tool call exactly when the slot held a tool-use block, emitting nothing otherwise; every other event decodes statelessly |
| AnthropicStream.ToolUseStopsOnce | src/protocol/anthropic/stream.rs:242-276 | a tool-use block opened and then stopped twice starts its call, closes it on the first stop and emits nothing on the second |
| AnthropicStream.OtherBlockStopsSilently | src/protocol/anthropic/stream.rs:264-273 | a block of any other kind emits nothing when it stops |
| AnthropicStream.StepBalance | src/protocol/anthropic/stream.rs:242-276 | one step never lets the ends emitted plus the open slot at an index grow faster than tool-use starts there |
| AnthropicStream.EndsNeverOutnumberStarts | src/protocol/anthropic/stream.rs:242-276 | over any stream, a tool call at an index is closed at most once per tool-use block opened there, plus the one already open |
| AnthropicStream.FreshDecoderEndsMatchStarts | src/protocol/anthropic/stream.rs:228-276 | from a fresh decoder there are never more call ends at an index than tool-use blocks opened there |
| AnthropicStream.StatefulDecoder.constructor | src/protocol/anthropic/stream.rs:228-234 | a new decoder knows no block |
| AnthropicStream.StatefulDecoder.DecodeInto | src/protocol/anthropic/stream.rs:242-276 | the block table and the events appended are exactly one decoding step |
| AnthropicStream.StatefulDecoder.SetBlockTypeForFastPath | src/protocol/anthropic/stream.rs:324-333 | the table records a tool-use block, or a text block for any other kind, at the index |
| AnthropicStream.OnePairUnlessUsage | src/protocol/anthropic/stream.rs:359-458 | every canonical event gives exactly one pair except usage, which gives none |
| AnthropicStream.Framed | src/protocol/anthropic/stream.rs:463-470 | the frame written is the `event:` and `data:` rendering of the pair |
| AnthropicStream.EncodeFrame | src/protocol/anthropic/stream.rs:463-560 | a frame is written exactly when the event has a pair, and it is that pair's rendering; a usage event writes nothing |
| ResponsesStream.UsageOf | src/protocol/openai_responses/stream.rs:88-99 | both counts are kept; the total is the reported one, or else the sum of the two counts |
| ResponsesStream.HasToolItem | src/protocol/openai_responses/stream.rs:102-109 | true exactly when some output item is a function call or a function call output |
| ResponsesStream.Decode | src/protocol/openai_responses/stream.rs:35-126 | creation starts an assistant message; the five bookkeeping events give nothing; completion ends with the message end and `Done`, after the usage when there is one, stopping for tool calls exactly when an output item is a call or a call output and otherwise at the end of the turn; an added item gives an event exactly when it is a function call |
| ResponsesStream.NextSequence | src/protocol/openai_responses/stream.rs:524-538 | the id's number is one more than its last, or 0 the first time; the id is recorded with that number and no other entry changes |
| ResponsesStream.ToolResultSequences.constructor | src/protocol/openai_responses/stream.rs:250-259 | a stream starts with no numbered ids |
| ResponsesStream.ToolResultSequences.Next | src/protocol/openai_responses/stream.rs:524-538 | the table and the number returned are exactly the numbering step |
| ResponsesStream.SequencesFor | src/protocol/openai_responses/stream.rs:524-538 | numbering a stream of ids gives one number per id |
| ResponsesStream.SequencesCount | src/protocol/openai_responses/stream.rs:524-538 | after a stream, exactly the ids seen are in the table, each with its count less one, and each occurrence gets the number of earlier occurrences of its id |
| ResponsesStream.CountGrows | src/protocol/openai_responses/stream.rs:524-538 | a later occurrence of an id has been seen at least once more than an earlier one |
| ResponsesStream.FcoIdInjective | src/protocol/openai_responses/stream.rs:345-347 | an item id `fco_<call id>_<n>` gives back its call id and number |
| ResponsesStream.DistinctItemIds | src/protocol/openai_responses/stream.rs:340-355 | within one stream every tool result gets its own item id |
| ResponsesStream.AsWrittenItemIdEndsEarly | src/protocol/openai_responses/stream.rs:345-347 | as written, for the call id `a"b` the item id's JSON string ends after `fco_a`, with bytes still following |
| ResponsesStream.ItemIdReadsBack | src/protocol/openai_responses/stream.rs:345-347 | with the call id escaped, the item id token is exactly one JSON string that reads back as the item id |
| ResponsesStream.AsWrittenAgreesWhenPlain | src/protocol/openai_responses/stream.rs:345-347 | for a call id with nothing to escape the written and the escaped tokens are the same bytes |
| ResponsesStream.OnePairUnlessSilent | src/protocol/openai_responses/stream.rs:275-376 | every canonical event gives exactly one pair, except usage, the end of the message and reasoning, which give none |
| ResponsesStream.PairNamedByWireType | src/protocol/openai_responses/stream.rs:275-376 | each pair is named by the `type` of the wire event it encodes |
| ResponsesStream.ReadBack | src/protocol/openai_responses/stream.rs:275-376 | over the wire event the model assigns to each client event (`WireOf`, whose type is the name of the event's pair by `PairNamedByWireType`; the payload text is not tied to it), decoding gives back text deltas, call starts, argument deltas and named call ends unchanged; a start reads back as an assistant start, an error with status 500, `Done` as the end of the turn and `Done`, a tool result as nothing |
| ResponsesStream.Framed | src/protocol/openai_responses/stream.rs:388-400 | the frame written is the `event:` and `data:` rendering of the pair |
| ResponsesStream.EncodePairs | src/protocol/openai_responses/stream.rs:275-376 | the shared table takes exactly the numbering step for a tool result and the pairs are the event's pairs with that number |
| ResponsesStream.EncodeFrame | src/protocol/openai_responses/stream.rs:388-490 | the table takes the numbering step; a frame is written exactly when the event has a pair, and it is that pair's rendering; otherwise nothing is written |
| ResponsesStream.WriteFrame | src/protocol/openai_responses/stream.rs:395-490 | given the number, a frame is written exactly when the event has a pair, and it is that pair's rendering |

## Left out

- Hashing: `mix_u64`, `sampled_bytes_hash`, FxHasher and the sticky-hash time bucket are taken as an already mixed `u64` parameter; `RoutingPolicy.StickyHashWrites` models only the bytes fed to the hasher.
- The breaker closure handed to `resolve_routes_with_policy` is a pure predicate on the upstream index; the half-open reservation it makes per call is modelled by `RouteBreaker.Admit` separately.
- The `seen_lo`/`seen_hi` bitmasks of `mark_unseen_upstream` are modelled as a set of upstream indices below 128.
- `str::trim` is modelled on single-byte whitespace only; multi-byte Unicode whitespace is not trimmed.
- `dispatch_request`, the HTTP handlers, the request-body limit, `known_model_count` and all async I/O are not part of this model.
- Locks, atomics and thread-local caches are modelled as single-threaded state.
- Configuration loading, defaults and the error texts of `ConfigError` are not part of this model; each validation failure is a `ConfigIssue` value naming what failed.
- `url::Url::parse` is a parameter of the validation (`UrlScheme`, the scheme of a parsable URL).
- `Validation.ValidateLogLevel`: `to_uppercase` is modelled on ASCII letters only. Rust's full Unicode upper-casing also maps the dotless `ı` to `I` and the long `ſ` to `S`, so the source accepts spellings such as `ınfo` or `dısabled` that the model rejects.
- `Validation.UpstreamServicesVerdict`: the alias named in the conflict message depends on `HashSet` iteration order, so the model reports the conflict without the name.
- `TokenCounter.EstimateRequestTokens`: the running total is a `nat`; the source adds into a `u64` with `+=`, which would wrap in a release build (and panic in a debug build) only after 2^64 estimated tokens, far beyond any request body the gateway accepts.
- `Detector.StreamingFcDetector`: the text is a byte string, so a UTF-8 character is several bytes and `char_indices` boundaries are computed by `NextCharBoundary`; `usize` lengths are `nat`s. The `state()` and `trigger_signal()` getters are plain field reads and are not separate members.
- Detector.StreamingFcDetector.Feed: when the `<` scan stops at `len - min_keep` inside a UTF-8 character, the source panics in `split_off`; the model moves the stop on to the next character boundary and hands the whole character on (see Findings).
- Detector.StreamingFcDetector.FeedOwned: the same corrected split as `Feed`, where the source panics.
- Detector.StreamingFcDetector.FeedDetecting: the same corrected split; the call to `SkipToCharBoundary` after the `<` scan has no counterpart in the source, which panics there instead.
- Detector.StreamingFcDetector.Settle: does not require the split index to be a character boundary, which the source's `split_off` demands; `FeedDetecting` passes it only boundaries on the `<` path, and on the other path boundaries of valid UTF-8 text, which the byte model does not require its input to be.
- Detector.DetectingKeepsText: holds for the corrected split; where the `<` scan stops inside a character the source panics instead of handing text on.
- FcStream.EventStep: feeds text through `FeedOwnedStep`, so it inherits the corrected split where the source's detector panics.
- `Detector.ToolParsingStep`: the search for `</function_calls>` starts 16 bytes before the old end of the buffer, as in the source, so a closing tag that came with the trigger chunk is only handed on by `finalize` (see `Detector.CloseBeforeFeedNotSeen`); callers of the detector rely on `finalize`, so this is modelled as written and not claimed as a defect.
- `Auth.Headers`: only the three headers the gateway reads are modelled; a repeated header is its first value, as `HeaderMap::get` returns.
- `FcRetry.RetryContext.Increment`: `+=` wraps as in a release build; a debug build would panic at 2^32 - 1 instead.
- `FcPolicies.FcPolicyCache`: `unix_now_secs` is the parameter `now`, read once per call as in the source.
- `ModelList`: the HTTP fetch of an upstream's model list, its status check and the JSON decoding are I/O; `FetchedModelIds` starts from the decoded payload, and `BuildDynamicVisibleModels` takes each upstream's fetch outcome and the router's candidate check as parameters.
- `ModelList.Listing`: the JSON body written for each entry (`object`, `created`, `permission` and so on) is serialisation and not part of this model; the listing gives the entries and their order.
- `GeminiDecoder`: the generation config (temperature, top-p and other floating-point sampling parameters) is not modelled.
- `GeminiDecoder`: `decode_gemini_request_owned` builds the same request from an owned value and is not modelled separately.
- `GeminiDecoder`: serialising function arguments and responses to JSON text is the parameter `toJson`; the failure path of re-parsing that text (`raw_value_from_string`) cannot be taken for text the serialiser produced and is not modelled.
- `GeminiDecoder`: the request id is an input that is only copied into the request and is left out.
- `GeminiIngress`: `decode_wire_owned` applies the same guard and decoding to an owned wire request and is not modelled separately; the other flow hooks of the ingress spec (body parsing, wire injection, encoding, the streaming and non-streaming handlers) are glue around I/O and are not part of this model.
- `PreparedUpstreams`: URL parsing is the parameter `parses` and a parsed URL is kept as its text; the `http::Uri` forms (`static_uri`, `request_uri_parsed`) mirror the `url::Url` forms with a second parser and are not modelled separately. Header-value validity follows the `http` crate's rule (visible characters, space and tab). The accessor wrappers (`build_upstream_url_prepared`, `static_parsed_upstream_url`, `build_provider_headers_prepared`) only forward and are not modelled. An unknown provider is excluded by a precondition, as the source treats it as unreachable after validation.
- `Probe`: the thread-local ranges cache (`probe_ranges_cache_get`/`_insert`, the last-hit slot and the sampled body hash) only saves repeated scans and is not modelled; `ParseCommonRequestProbe` returns None where the source would fall back to a full serde parse (`SlowCommonProbe`, `raw_tools_value_has_items`), which is not modelled. `rewrite_model_field_in_json_body_with_range` is not modelled beyond the range rewrite it delegates to, as its fallback re-serialises a serde value.
- ParseModelToken: serde's reading of an escaped token is modelled by the JSON string-body reader of `Util` (ASCII `\u` escapes only), and UTF-8 validation of the inner bytes is not modelled because bytes are characters here.
- RewriteModelTokenRange: returns the new body directly; the source's `Transport` error for a failing `serde_json::to_vec` of a string cannot occur and is not modelled.
- `RawInject`: `try_build_openai_simple_fc_inject_body_from_raw` is not modelled: it looks up the body caches, takes the probe ranges, resolves the function-calling prompt artifacts (`resolve_simple_inject_artifacts`) and refuses JSON-mode `response_format` before calling the rebuild, which is modelled with the system message and the inner-bounds hint as parameters.
- `RawInject`: the two-level body cache (key hashing, the set-associative table and the thread-local last hit) only saves repeated rebuilds and is not modelled beyond `SimpleInjectBodyCacheable`.
- `RawInject`: the `&mut Vec<u8>` output buffer is modelled as a value threaded through each call, which returns the old output with the new bytes appended.
- `RawInject`: the inner bounds are related to the message check item by item, not to the full JSON array grammar of `parse_json_value_end`.
- `RawInject`: a messages array with a trailing comma (`[{...},]`) passes the item loop as written, and the model keeps that behaviour.
- `Sse`: `sse_frame_stream` and `sse_raw_frame_stream` are asynchronous stream adapters (byte-stream polling, UTF-8 reassembly across chunks, the `[DONE]` cut-off) and are not modelled; the parser and terminator search they drive are.
- `Sse`: `gemini_sse_frame` is `openai_sse_frame` and is not a separate member.
- `Sse`: text is modelled as a sequence of characters; the `&str` UTF-8 encoding, `SmallVec` storage and capacity reservations are not modelled.
- `Sse`: a `retry:` line is parsed and its value discarded, so it is modelled as an ignored line; the `retry` field of a parsed event is always None.
- `StreamFrame`: UTF-8 validation (`from_utf8(...).ok()?`) is not modelled, because bytes are characters here; the source returns None for a field value that is not UTF-8.
- `StreamFrame`: the Debug text of the event inside the `Translation` error of `encode_sse_event` is replaced by a fixed message.
- `StreamFrame.ParsedCallArgumentsDelta`: `serde_json::to_string` is the parameter `serialized` (None when it fails).
- `StreamFrame.ParseSseFrameBytes`: the five local variables of the loop are held in one `FrameState` value.
- `FcParser`: the XML tiers (`parse_xml_fast_function_calls`, `parse_xml_fast_mixed`, `parse_xml_strict` on quick-xml, `parse_xml_regex` and `parse_xml_permissive`) are the `Tiers` parameter of the parse; the order in which the tiers are tried and what is done with their result are modelled, their XML reading is not.
- `FcParser`: the tag helpers those tiers use (`extract_attr_permissive`, `extract_id_attr_permissive`, `extract_name_attr_permissive`, `extract_optional_id_attr`, `extract_optional_name_attr`, `extract_xml_tag_text`, `extract_first_args_tag_text`, `extract_first_tag_body_case_insensitive`, `find_ascii_case_insensitive`, `find_open_tag_start_case_insensitive`, `find_close_tag_start_case_insensitive`, `next_tag_block_case_insensitive`, `is_args_tag`, `is_ascii_attr_char`, `is_ascii_word_char`, `is_tag_name_boundary`, `empty_json_object`) belong to the tiers and are not modelled.
- `FcParser`: `reasoning_open_tag_len_at` and `reasoning_close_tag_len_at` are `OpenTagLen` and `CloseTagLen` on the text from the given position on.
- `Validator`: compiling and matching a `pattern` regex, and the `cached_regex` cache, are `Env.regexMatch` (None when the pattern does not compile).
- `Validator`: comparisons of `f64` numbers against `minimum` and `maximum` are `Env.lessF64`.
- Validator.ValidateToolCall: takes the permissive-object shortcut only as intended (`PermissiveObjectIntended`); the source's shortcut (`SchemaIsPermissiveObject`) is also taken for a root `type` array such as `["string"]`, where it accepts any object arguments that `validate_value` would reject (see Findings).
- Validator.ValidateToolCallMeaning: states the verdict with the intended shortcut, not the source's.
- Validator.ValidateToolCalls: each call's verdict uses the intended shortcut, not the source's.
- Validator.CallsVerdictOk: about the batch verdict with the intended shortcut.
- Validator.ValidateParserToolCalls: the parser's calls get the verdict with the intended shortcut.
- FcPostprocess.ProcessSpecMeaning: the validation step of the post-processing uses the intended shortcut, so a call the source accepts under a root `type` array is rejected here.
- FcPostprocess.ProcessFcResponse: the same intended shortcut in its validation step.
- FcPostprocess.PostprocessAgreesWithProcess: the same intended shortcut in its validation step.
- FcPostprocess.ApplyFcPostprocessOnce: the same intended shortcut in its validation step.
- `Validator`: error messages are `ValidationError` kinds with their data; the formatted text (`fmt`) is not modelled.
- `Validator`: `schema_type` and `validate_type_constraints_object` are inlined into `TypeErrors`.
- `FcPrompt`: the random draws behind the trigger signal are the parameter `draws`; `get_trigger_signal` and the process-wide `TRIGGER_SIGNAL` are `PromptSetup.trigger`.
- `FcPrompt`: `default_prompt_template` is `DefaultTemplate`; the instructions after its tool-list placeholder are `PromptSetup.defaultRest`, with the trigger already written in.
- `FcPrompt`: `encode_openai_system_message_json` and `openai_system_message_json` are the parameter `encode`; its serialisation error, which cannot happen for a string, is not modelled.
- `FcPrompt`: `generate_fc_prompt_artifacts` is `PromptCache.GenerateArtifacts`; the `RwLock` around the process-wide cache is not modelled, so the second lookup under the write lock is one lookup.
- `FcPrompt`: the text of each parameter's detail line (`format_param_detail`) is the parameter `detail`.
- `FcPreprocess`, `FcInject`, `FcPostprocess`: the process-wide trigger signal, the JSON serialiser and the parser's XML tiers are parameters.
- `ResponsesFc`: `response_format_is_json_mode` and `responses_text_format_is_json_mode` are the predicates `FcInject.ResponseFormatIsJsonMode` and `FcInject.ResponsesTextFormatIsJsonMode`, which have the same definition.
- `ResponsesFc`: serde's parsing of the `tools` token is the option it yields.
- `Transcoder`: the upstream decoders and client encoders are parameters. This covers `decode_upstream_frame`, `decode_upstream_frame_into`, `decode_upstream_event_data_into`, `decode_upstream_raw_frame_into`, `decode_openai_data_frame_bytes_into`, `decode_openai_data_payload_into`, `try_decode_openai_data_payload_bytes_into`, `decode_responses_completed`, `decode_responses_output_item_added`, `decode_responses_output_item_done` and `encode_client_event_bytes`.
- `Transcoder`: the serde-free fast decoders are not modelled. They give the same events as the decoders they shortcut. This covers `try_fast_decode_anthropic_stream_event`, `try_fast_decode_gemini_stream_chunk`, `try_fast_decode_openai_stream_chunk`, `try_fast_decode_openai_tool_calls_chunk_at` and `try_fast_decode_responses_stream_event`.
- `Transcoder`: the string and object readers behind the fast decoders are not modelled. This covers the `parse_string_after_key*` family, `parse_unescaped_string_slice_after_key`, `parse_json_value_string_after_key_in`, `parse_json_object_value_range_after_key*`, `parse_openai_role_after_key_pos`, `parse_openai_usage_after_key_pos`, `parse_openai_stop_reason_from_string_value`, `parse_anthropic_stop_reason_after_key`, `parse_gemini_stop_reason_after_key` and `find_openai_chunk_key_positions`.
- `Transcoder`: the `u64` readers are modelled.
- `Transcoder`: `transcode_frame`, `transcode_frame_into`, `transcode_frame_into_with_decode_buffer`, `transcode_frame_into_bytes_with_decode_buffer` and `transcode_raw_frame_into_bytes_with_decode_buffer` chain a decoder and an encoder. Only the retry of an unterminated raw frame (`try_decode_upstream_raw_frame_into`) and the events dropped per dialect are modelled.
- `Transcoder`: `parse_raw_sse_data_only_frame`, `parse_raw_sse_event_and_data_frame` and `raw_sse_payload_end` are the frame readers `StreamFrame.TryParseDataOnly`, `StreamFrame.TryParseEventAndData` and `StreamFrame.FramePayloadEnd`.
- `Transcoder`: `parse_responses_event_type_from_data` reads the `type` field with the string readers above and is not modelled.
- `Transcoder`: the capacity estimates (`estimated_anthropic_frame_capacity`, `estimated_responses_frame_capacity`) only size buffers and are not modelled.
- `Streaming`: the asynchronous handlers are HTTP and stream glue around the modelled helpers and are not modelled. This covers `handle_streaming_request`, the `build_*_stream_response` family, `sse_ok_response`, `sse_ok_response_with_content_type` and `try_start_passthrough_fc_processor`.
- `Streaming`: `move_byte_chunks_to_pending` is `PendingBytes.ExtendFromBytes`.
- `Streaming`: `parse_raw_sse_frame_bytes` is the frame parser `StreamFrame.ParseSseFrameBytes`.
- `Streaming`: `trigger_signal_in_bytes` is a substring search. Its precomputed finder for the process-wide signal gives the same answer.
- `FcStream`: the `_bytes` variants (`process_decoded_events_into_bytes`, `emit_parsed_tool_calls_into_bytes`, `finalize_bytes`, `finalize_into_bytes`) build the same output as the modelled ones, as one byte buffer instead of a list of chunks, and are not separate members.
- `FcStream`: `process_frame`, `process_frame_into`, `process_frame_into_bytes`, `process_raw_frame_into_bytes` and `try_process_raw_frame_into_bytes` decode a frame and call the modelled event loop. They are modelled only through `try_process_raw_frame_into`.
- `FcStream`: the OpenAI fast paths are not modelled. These are `process_openai_data_frame_into`, `try_process_openai_data_frame_bytes_into` and `try_process_openai_data_frame_bytes_into_bytes`, which read a chat-completions `data:` frame without the decoder.
- `FcStream`: the `usize` tool-call index is an unbounded `nat`.
- `FcStream`: the process-wide call-id counter is the `Util.CallIdCounter` object passed in.
- `FcStream`: `serde_json::to_string` is the `Serializer` parameter.
- `AnthropicStream`: `parse_anthropic_sse` and `parse_anthropic_sse_bytes` are serde deserialisation into the wire event, which the model takes as its input.
- `AnthropicStream`: the owned variants (`decode_anthropic_stream_event_owned_into`, `decode_owned_into`) decode as the borrowed ones do and are not separate members.
- `AnthropicStream.UsageOf`: the total is the wrapping `u64` sum of a release build. The contract states it only when the sum fits, and a debug build's overflow panic is not modelled.
- `ResponsesStream`: `parse_responses_sse_line` is serde deserialisation into the wire event, which the model takes as its input.
- `ResponsesStream`: `decode_responses_stream_event_owned_into` decodes as the borrowed decoder does.
- `ResponsesStream`: `push_response_envelope_data` writes the JSON text of `build_response_envelope_data` (`Envelope`) straight into the output buffer.
- ResponsesStream.EncodePairs: the tool result's item id `fco_<call id>_<n>` is written with the call id JSON-escaped (`ItemIdToken`); the source pushes the call id raw, which ends the `id` string early for a call id holding a quote (see Findings).
- ResponsesStream.EncodeFrame: writes the escaped item id of `EncodePairs`, where the source writes the call id raw.
- ResponsesStream.WriteFrame: writes the escaped item id of `EncodePairs`, where the source writes the call id raw.
- ResponsesStream.ReadBack: the round trip runs over the wire event `WireOf` assigns, not over the frame's JSON text; only the pair's name is tied to that wire event, and the payload text is not parsed back.
- ResponsesStream.NextSequence: the per-call-id number is a `nat`; the source's `usize` `*seq += 1` would wrap in a release build (and panic in a debug build) only after 2^64 results for one call id.
- `ResponsesStream.UsageOf`: without a reported total, the total is the wrapping `u64` sum of a release build. The contract states it only when the sum fits.

## Findings

| source | as written | input that shows it | evidently intended | confidence | as-written member | corrected member |
|---|---|---|---|---|---|---|
| src/routing/dispatch.rs:77-86 | `normalize_base_path` trims whitespace before stripping trailing slashes, so whitespace in front of a trailing slash survives | base path `a /` normalises to `/a `, and normalising that again gives `/a` | a normalised base path is a fixed point of the normalisation | not executed | Dispatch.NormalizeTwiceDiffers | Dispatch.NormalizeStableIdempotent |
| src/stream/mod.rs:163-165 | the event-and-data fast path drops a trailing CR from the data line even when the frame ends in `\r\n\r\n`, whose first CR is already cut off by the payload end | `event: x\r\ndata: y\r\r\n\r\n`: the fast path returns data `y`, the line loop that runs without the fast path returns `y\r` | the fast path returns what the line loop returns (a full WHATWG reader, which also ends lines at a lone CR, would give `y` on both) | not executed; low | StreamFrame.EventAndDataCrlfFinding | StreamFrame.IntendedIsGeneral |
| src/state/route_breaker.rs:89-93 | once a shard holds more than 256 model groups, pruning keeps every breaker that is open or has any failure, and a breaker closes without resetting its failure count, so closed breakers are never pruned | a shard of 257 model groups that each failed once and have since closed: pruning drops none of them | pruning drops the breakers that are no longer open, so the shard shrinks (`RecordFailure` keeps the pruning as written, since it changes no routing decision) | not executed; low (model groups come from the configured routes, so the shard's growth is bounded by configuration) | RouteBreaker.AsWrittenRetainKeepsClosed | RouteBreaker.PruneShardShrinks |
| src/protocol/openai_responses/stream.rs:345-347 | the tool result's item id `fco_<call id>_<n>` writes the call id into the JSON string without escaping it | call id `a"b`: the `id` string ends after `fco_a` and `b_0"` follows, so the frame is not valid JSON | the call id is escaped like every other string of the frame | not executed | ResponsesStream.AsWrittenItemIdEndsEarly | ResponsesStream.ItemIdReadsBack |
| src/fc/validator.rs:85-90 | the permissive-object shortcut looks at `type` only when it is a string, so a `type` array passes it | tool parameters `{"type": ["string"]}` with arguments `{}`: the shortcut accepts the call, while `validate_value` rejects it with a type mismatch | the shortcut is taken only for schemas that accept every object, so it never changes a verdict | not executed | Validator.AsWrittenShortcutAcceptsRejected | Validator.IntendedShortcutExact |
| src/fc/detector.rs:277-282 | when the `<` scan finds no `<` below `len - min_keep` it stops at `len - min_keep` without moving to a character boundary, as the other scan path does, and `split_off` at that index panics | trigger `<Function_AB12_Start/>`, a fresh detector and the chunk `<` followed by eleven `é` (23 bytes): the stop index 2 is the second byte of the first `é` | the buffer is split at a character boundary, after the whole character | not executed | Detector.AsWrittenScanLimitSplits | Detector.SplitAtCharBoundary |
