/** `src/util.rs`: the hand-written JSON string escaper, the decimal and
    fixed-width hexadecimal writers, the call-id and request-id formatters
    and the SSE `data:` line extractor.

    The writers take the output buffer and return it extended, which is
    what appending to a `&mut String` amounts to. */
module Util {
  import opened Wrappers
  import opened Bytes
  import opened Ints

  /** Entry `d` of the `HEX` table "0123456789abcdef". */
  function HexDigit(d: nat): (b: byte)
    requires d < 16
  {
    if d < 10 then (d + '0' as int) as char else (d - 10 + 'a' as int) as char
  }

  predicate IsLowerHex(b: byte) { '0' <= b <= '9' || 'a' <= b <= 'f' }

  // ---------------------------------------------------------------------
  // JSON string escaping (RFC 8259, section 7)

  /** Bytes that serde_json never writes raw inside a string literal. */
  predicate NeedsEscape(b: byte) { b < ' ' || b == '"' || b == '\\' }

  /** How serde_json writes one byte of a string. Bytes of multi-byte UTF-8
      characters are all 0x80 or above and are copied unchanged, so escaping
      byte by byte agrees with escaping character by character. */
  function EscapeByte(b: byte): (r: bytes)
  {
    if b == '"' then "\\\""
    else if b == '\\' then "\\\\"
    else if b == '\n' then "\\n"
    else if b == '\r' then "\\r"
    else if b == '\t' then "\\t"
    else if b as int == 0x08 then "\\b"
    else if b as int == 0x0C then "\\f"
    else if b < ' ' then "\\u00" + [HexDigit(b as int / 16), HexDigit(b as int % 16)]
    else [b]
  }

  /** `f` applied to every byte of `s`, the results concatenated in order. */
  function ConcatMap(f: byte -> bytes, s: bytes): bytes {
    if |s| == 0 then [] else ConcatMap(f, s[..|s| - 1]) + f(s[|s| - 1])
  }

  lemma {:induction false} ConcatMapCons(f: byte -> bytes, b: byte, s: bytes)
    ensures ConcatMap(f, [b] + s) == f(b) + ConcatMap(f, s)
    decreases |s|
  {
    if |s| == 0 {
      assert ([b] + s)[..0] == [];
    } else {
      var t, l := s[..|s| - 1], s[|s| - 1];
      assert ([b] + s)[..|s|] == [b] + t;
      assert ([b] + s)[|s|] == l;
      ConcatMapCons(f, b, t);
    }
  }

  function EscapeBody(s: bytes): bytes {
    ConcatMap(EscapeByte, s)
  }

  /** The JSON string literal serde_json produces for `s`. */
  function JsonQuoted(s: bytes): bytes {
    "\"" + EscapeBody(s) + "\""
  }

  lemma EscapeBodyCons(b: byte, s: bytes)
    ensures EscapeBody([b] + s) == EscapeByte(b) + EscapeBody(s)
  {
    ConcatMapCons(EscapeByte, b, s);
  }

  predicate NothingToEscape(s: bytes) {
    forall k | 0 <= k < |s| :: !NeedsEscape(s[k])
  }

  /** Nothing to escape in either part, nothing to escape in the whole. */
  lemma NothingToEscapeConcat(a: bytes, b: bytes)
    requires NothingToEscape(a) && NothingToEscape(b)
    ensures NothingToEscape(a + b)
  {
    forall k | 0 <= k < |a + b| ensures !NeedsEscape((a + b)[k]) {
      if k < |a| {
        assert (a + b)[k] == a[k];
      } else {
        assert (a + b)[k] == b[k - |a|];
      }
    }
  }

  /** A string with nothing to escape is written as is. */
  lemma {:induction false} EscapeBodyPlain(s: bytes)
    requires NothingToEscape(s)
    ensures EscapeBody(s) == s
    decreases |s|
  {
    if |s| > 0 {
      EscapeBodyPlain(s[..|s| - 1]);
    }
  }

  function HexValue(b: byte): Option<nat> {
    if '0' <= b <= '9' then Some(b as int - '0' as int)
    else if 'a' <= b <= 'f' then Some(b as int - 'a' as int + 10)
    else if 'A' <= b <= 'F' then Some(b as int - 'A' as int + 10)
    else None
  }

  /** The byte a two-byte escape `\e` stands for. */
  function SimpleEscape(e: byte): Option<byte> {
    if e == '"' then Some('"')
    else if e == '\\' then Some('\\')
    else if e == '/' then Some('/')
    else if e == 'n' then Some('\n')
    else if e == 'r' then Some('\r')
    else if e == 't' then Some('\t')
    else if e == 'b' then Some(0x08 as char)
    else if e == 'f' then Some(0x0C as char)
    else None
  }

  /** The ASCII byte a six-byte escape `\u00XY` at the front of `t` stands for. */
  function UnicodeEscape(t: bytes): Option<byte> {
    if |t| >= 6 && t[0] == '\\' && t[1] == 'u' && t[2] == '0' && t[3] == '0'
       && HexValue(t[4]).Some? && HexValue(t[5]).Some? && HexValue(t[4]).value < 8
    then Some((HexValue(t[4]).value * 16 + HexValue(t[5]).value) as char)
    else None
  }

  /** Reads back the body of a JSON string literal (the reverse of
      `EscapeBody`); `\u` escapes are read for ASCII code points only. */
  function UnescapeBody(t: bytes): (r: Option<bytes>)
    decreases |t|
  {
    if |t| == 0 then Some([])
    else
      var (b, n) :=
        if t[0] != '\\' then (if NeedsEscape(t[0]) then (None, 1) else (Some(t[0]), 1))
        else if |t| >= 2 && SimpleEscape(t[1]).Some? then (SimpleEscape(t[1]), 2)
        else (UnicodeEscape(t), 6);
      if b.None? || n > |t| then None
      else
        match UnescapeBody(t[n..])
        case None => None
        case Some(rest) => Some([b.value] + rest)
  }

  lemma UnescapeStep(t: bytes, b: byte, n: nat)
    requires 1 <= n <= |t| && UnescapeBody(t[n..]).Some?
    requires n == 1 ==> t[0] != '\\' && !NeedsEscape(t[0]) && b == t[0]
    requires n == 2 ==> |t| >= 2 && t[0] == '\\' && SimpleEscape(t[1]) == Some(b)
    requires n == 6 ==> t[0] == '\\' && SimpleEscape(t[1]).None? && UnicodeEscape(t) == Some(b)
    requires n == 1 || n == 2 || n == 6
    ensures UnescapeBody(t) == Some([b] + UnescapeBody(t[n..]).value)
  {
  }

  predicate IsUnicodeEscaped(b: byte) {
    b < ' ' && b != '\n' && b != '\r' && b != '\t' && b as int != 0x08 && b as int != 0x0C
  }

  lemma UnescapeUnicode(b: byte, t: bytes)
    requires IsUnicodeEscaped(b) && UnescapeBody(t).Some?
    ensures UnescapeBody(EscapeByte(b) + t) == Some([b] + UnescapeBody(t).value)
  {
    var hi := b as int / 16;
    var lo := b as int % 16;
    var e: bytes := ['\\', 'u', '0', '0', HexDigit(hi), HexDigit(lo)];
    assert EscapeByte(b) == e;
    assert HexValue(HexDigit(hi)) == Some(hi);
    assert HexValue(HexDigit(lo)) == Some(lo);
    assert UnicodeEscape(e + t) == Some(b);
    assert (e + t)[6..] == t;
    UnescapeStep(e + t, b, 6);
  }

  lemma UnescapeShort(b: byte, t: bytes)
    requires NeedsEscape(b) && !IsUnicodeEscaped(b) && UnescapeBody(t).Some?
    ensures UnescapeBody(EscapeByte(b) + t) == Some([b] + UnescapeBody(t).value)
  {
    var e := EscapeByte(b);
    assert |e| == 2 && e[0] == '\\' && SimpleEscape(e[1]) == Some(b);
    assert (e + t)[2..] == t;
    UnescapeStep(e + t, b, 2);
  }

  lemma UnescapePlain(b: byte, t: bytes)
    requires !NeedsEscape(b) && UnescapeBody(t).Some?
    ensures UnescapeBody(EscapeByte(b) + t) == Some([b] + UnescapeBody(t).value)
  {
    assert EscapeByte(b) == [b];
    assert ([b] + t)[1..] == t;
    UnescapeStep([b] + t, b, 1);
  }

  lemma UnescapeByte(b: byte, t: bytes)
    requires UnescapeBody(t).Some?
    ensures UnescapeBody(EscapeByte(b) + t) == Some([b] + UnescapeBody(t).value)
  {
    if IsUnicodeEscaped(b) {
      UnescapeUnicode(b, t);
    } else if NeedsEscape(b) {
      UnescapeShort(b, t);
    } else {
      UnescapePlain(b, t);
    }
  }

  /** Escaping round-trips: reading the escaped body back gives the
      original bytes. */
  lemma {:induction false} UnescapeEscape(s: bytes)
    ensures UnescapeBody(EscapeBody(s)) == Some(s)
    decreases |s|
  {
    if |s| > 0 {
      UnescapeEscape(s[1..]);
      UnescapeByte(s[0], EscapeBody(s[1..]));
      assert [s[0]] + s[1..] == s;
      EscapeBodyCons(s[0], s[1..]);
    }
  }

  /** `push_json_string_escaped`: appends the JSON literal for `value`,
      copying it in one piece when nothing needs escaping. */
  method PushJsonStringEscaped(out: bytes, value: bytes) returns (r: bytes)
    ensures r == out + JsonQuoted(value)
  {
    if NothingToEscape(value) {
      EscapeBodyPlain(value);
      r := out + "\"" + value + "\"";
    } else {
      var body: bytes := [];
      var i := 0;
      while i < |value|
        invariant i <= |value|
        invariant body == EscapeBody(value[..i])
      {
        assert value[..i + 1][..i] == value[..i];
        body := body + EscapeByte(value[i]);
        i := i + 1;
      }
      assert value[..i] == value;
      r := out + "\"" + body + "\"";
    }
  }

  // ---------------------------------------------------------------------
  // Decimal and hexadecimal writers

  function DigitByte(d: nat): (b: byte)
    requires d < 10
    ensures IsDigit(b) && b as int - '0' as int == d
  {
    (d + '0' as int) as char
  }

  /** The decimal digits of `n` without leading zeros (none for 0). */
  function Digits(n: nat): bytes
    decreases n
  {
    if n == 0 then [] else Digits(n / 10) + [DigitByte(n % 10)]
  }

  /** The text `push_u64_decimal` appends: the digits of `n`, or "0". */
  function Decimal(n: nat): bytes {
    if n == 0 then "0" else Digits(n)
  }

  function DigitValue(b: byte): nat
    requires IsDigit(b)
  {
    b as int - '0' as int
  }

  function DecimalValue(d: bytes): nat
    requires forall k | 0 <= k < |d| :: IsDigit(d[k])
  {
    if |d| == 0 then 0
    else DecimalValue(d[..|d| - 1]) * 10 + DigitValue(d[|d| - 1])
  }

  lemma {:induction false} DigitsFacts(n: nat)
    ensures var d := Digits(n);
      (forall k | 0 <= k < |d| :: IsDigit(d[k]))
      && DecimalValue(d) == n
      && (n > 0 <==> |d| > 0)
      && (|d| > 0 ==> d[0] != '0')
    decreases n
  {
    if n > 0 {
      DigitsFacts(n / 10);
      var d := Digits(n);
      assert d[..|d| - 1] == Digits(n / 10);
    }
  }

  /** `Decimal(n)` is a non-empty digit string without a leading zero
      (other than "0" itself) whose value is `n`. */
  lemma DecimalRoundTrip(n: nat)
    ensures var d := Decimal(n);
      |d| >= 1
      && (forall k | 0 <= k < |d| :: IsDigit(d[k]))
      && DecimalValue(d) == n
      && (d[0] == '0' ==> d == "0")
  {
    DigitsFacts(n);
    if n == 0 {
      assert DecimalValue("0") == DecimalValue([]) * 10 + 0;
    }
  }

  lemma {:induction false} DigitsLength(n: nat, k: nat)
    requires n < Pow(10, k)
    ensures |Digits(n)| <= k
    decreases k
  {
    if n > 0 {
      DigitsLength(n / 10, k - 1);
    }
  }

  /** One step of `push_u64_decimal`: the last decimal digit of `m` is
      written just left of the digits already in place. */
  method PutDigit(buf: array<byte>, i: nat, m: nat, ghost all: bytes)
    requires 0 < m && |Digits(m)| <= i <= buf.Length
    requires Digits(m) + buf[i..] == all
    modifies buf
    ensures |Digits(m / 10)| <= i - 1 && Digits(m / 10) + buf[i - 1..] == all
  {
    ghost var done := buf[i..];
    assert Digits(m) == Digits(m / 10) + [DigitByte(m % 10)];
    buf[i - 1] := DigitByte(m % 10);
    assert buf[i..] == done;
    assert buf[i - 1..] == [DigitByte(m % 10)] + done;
  }

  /** `push_u64_decimal`: fills a 20-byte buffer from the right with the
      remainders of repeated division by ten, then appends the used part. */
  method PushU64Decimal(out: bytes, n: u64) returns (r: bytes)
    ensures r == out + Decimal(n)
  {
    if n == 0 {
      return out + "0";
    }
    var buf := new byte[20](_ => '0');
    var i := buf.Length;
    var m: nat := n;
    PowLimits();
    DigitsLength(n, 20);
    while m > 0
      invariant 0 <= i <= buf.Length
      invariant |Digits(m)| <= i
      invariant Digits(m) + buf[i..] == Digits(n)
    {
      PutDigit(buf, i, m, Digits(n));
      i := i - 1;
      m := m / 10;
    }
    assert Digits(0) == [];
    assert buf[i..] == Digits(n);
    return out + buf[i..];
  }

  /** `width` lower-case hexadecimal digits of `v`, most significant first. */
  function HexFixed(v: nat, width: nat): (r: bytes)
    ensures |r| == width
    decreases width
  {
    if width == 0 then [] else HexFixed(v / 16, width - 1) + [HexDigit(v % 16)]
  }

  function HexDigitsValue(d: bytes): Option<nat> {
    if |d| == 0 then Some(0)
    else
      match HexDigitsValue(d[..|d| - 1])
      case None => None
      case Some(hi) =>
        match HexValue(d[|d| - 1])
        case None => None
        case Some(lo) => Some(hi * 16 + lo)
  }

  lemma {:induction false} HexFixedValue(v: nat, width: nat)
    requires v < Pow(16, width)
    ensures var h := HexFixed(v, width);
      (forall k | 0 <= k < width :: IsLowerHex(h[k])) && HexDigitsValue(h) == Some(v)
    decreases width
  {
    if width > 0 {
      DivBound(v, Pow(16, width - 1));
      HexFixedValue(v / 16, width - 1);
      var h := HexFixed(v, width);
      var d := v % 16;
      assert h == HexFixed(v / 16, width - 1) + [HexDigit(d)];
      assert h[..width - 1] == HexFixed(v / 16, width - 1);
      assert HexValue(HexDigit(d)) == Some(d);
      assert HexDigitsValue(h) == Some((v / 16) * 16 + d);
    }
  }

  lemma DivBound(v: nat, p: nat)
    requires v < 16 * p
    ensures v / 16 < p
  {
  }

  /** Sixteen hex digits are exactly a u64: the value reads back, and
      different values give different texts. */
  lemma Hex16RoundTrip(v: u64)
    ensures var h := HexFixed(v, 16);
      (forall k | 0 <= k < 16 :: IsLowerHex(h[k])) && HexDigitsValue(h) == Some(v)
  {
    PowLimits();
    HexFixedValue(v, 16);
  }

  lemma Hex16Injective(a: u64, b: u64)
    requires HexFixed(a, 16) == HexFixed(b, 16)
    ensures a == b
  {
    Hex16RoundTrip(a);
    Hex16RoundTrip(b);
  }

  /** Writing the lowest nibble in front of the digits already written
      leaves the higher nibbles to write. */
  lemma HexNibbleStep(v: nat, width: nat, done: bytes, total: bytes)
    requires width > 0 && HexFixed(v, width) + done == total
    ensures HexFixed(v / 16, width - 1) + ([HexDigit(v % 16)] + done) == total
  {
    var front := HexFixed(v / 16, width - 1);
    assert HexFixed(v, width) == front + [HexDigit(v % 16)];
  }

  /** One step of `push_u64_hex_16`: the low nibble of `v` is written just
      left of the digits already in place. */
  method PutNibble(buf: array<byte>, idx: nat, v: nat, ghost total: bytes)
    requires 0 < idx <= buf.Length
    requires HexFixed(v, idx) + buf[idx..] == total
    modifies buf
    ensures HexFixed(v / 16, idx - 1) + buf[idx - 1..] == total
  {
    ghost var done := buf[idx..];
    HexNibbleStep(v, idx, done, total);
    buf[idx - 1] := HexDigit(v % 16);
    assert buf[idx..] == done;
    assert buf[idx - 1..] == [HexDigit(v % 16)] + buf[idx..];
  }

  /** `push_u64_hex_16`: sixteen nibbles written from the right, the value
      shifted right by four after each. */
  method PushU64Hex16(out: bytes, value: u64) returns (r: bytes)
    ensures r == out + HexFixed(value, 16)
  {
    var buf := new byte[16](_ => '0');
    var idx := 16;
    var v: nat := value;
    ghost var total := HexFixed(value, 16);
    while idx > 0
      invariant 0 <= idx <= 16
      invariant HexFixed(v, idx) + buf[idx..] == total
      decreases idx
    {
      PutNibble(buf, idx, v, total);
      idx := idx - 1;
      v := v / 16;
    }
    assert HexFixed(v, 0) == [];
    assert buf[..] == buf[0..] == total;
    return out + buf[..];
  }

  /** `format_request_seq_hex`. */
  method FormatRequestSeqHex(prefix: bytes, requestSeq: u64) returns (r: bytes)
    ensures r == prefix + HexFixed(requestSeq, 16)
    ensures |r| == |prefix| + 16
  {
    r := PushU64Hex16(prefix, requestSeq);
  }

  /** The process-wide call-id counter behind `next_call_id` and
      `next_generated_id`; it starts at 1 and wraps like `fetch_add`. */
  class CallIdCounter {
    var next: u64

    constructor ()
      ensures next == 1
    {
      next := 1;
    }

    /** `next_call_id`: "call_" followed by the counter in sixteen hex
        digits; the counter moves on by one. */
    method NextCallId() returns (id: bytes)
      modifies this
      ensures id == "call_" + HexFixed(old(next), 16)
      ensures next == (old(next) + 1) % U64_LIMIT
    {
      id := PushU64Hex16("call_", next);
      next := (next + 1) % U64_LIMIT;
    }

    /** `next_generated_id`: `prefix`, a dash and the counter in hex. */
    method NextGeneratedId(prefix: bytes) returns (id: bytes)
      modifies this
      ensures id == prefix + "-" + HexFixed(old(next), 16)
      ensures next == (old(next) + 1) % U64_LIMIT
    {
      id := PushU64Hex16(prefix + "-", next);
      next := (next + 1) % U64_LIMIT;
    }
  }

  /** Two call ids drawn before the counter wraps are different. */
  lemma CallIdsDistinct(a: u64, b: u64)
    requires a != b
    ensures "call_" + HexFixed(a, 16) != "call_" + HexFixed(b, 16)
  {
    if "call_" + HexFixed(a, 16) == "call_" + HexFixed(b, 16) {
      assert HexFixed(a, 16) == ("call_" + HexFixed(a, 16))[5..];
      Hex16Injective(a, b);
    }
  }

  // ---------------------------------------------------------------------
  // SSE data lines

  function StripPrefix(s: bytes, p: bytes): Option<bytes> {
    if StartsWith(s, p) then Some(s[|p|..]) else None
  }

  /** A trimmed line that is neither blank, nor a comment, nor an `event:`
      line that is to be ignored. */
  predicate LiveSseLine(t: bytes, ignoreEventLines: bool) {
    |t| > 0 && t[0] != ':' && !(ignoreEventLines && StartsWith(t, "event:"))
  }

  /** `extract_sse_data_payload`: the trimmed payload of a `data:` line, or
      None for blank lines, comments, `[DONE]` and (when asked) `event:`
      lines. */
  function ExtractSseDataPayload(line: bytes, allowDataNoSpace: bool, allowBareJson: bool,
                                 ignoreEventLines: bool): (r: Option<bytes>)
    ensures r.Some? ==> Trim(r.value) == r.value && r.value != "[DONE]"
    ensures |Trim(line)| == 0 || Trim(line)[0] == ':' ==> r.None?
    ensures ignoreEventLines && StartsWith(Trim(line), "event:") ==> r.None?
    ensures !allowDataNoSpace && !allowBareJson && !StartsWith(Trim(line), "data: ") ==> r.None?
    ensures var t := Trim(line);
      LiveSseLine(t, ignoreEventLines) && StartsWith(t, "data: ") ==>
        (r.Some? <==> Trim(t[6..]) != "[DONE]") && (r.Some? ==> r.value == Trim(t[6..]))
    ensures var t := Trim(line);
      LiveSseLine(t, ignoreEventLines) && !StartsWith(t, "data: ") && allowDataNoSpace ==>
        (r.Some? <==> StartsWith(t, "data:") && Trim(t[5..]) != "[DONE]") && (r.Some? ==> r.value == Trim(t[5..]))
    ensures var t := Trim(line);
      LiveSseLine(t, ignoreEventLines) && !StartsWith(t, "data: ") && !allowDataNoSpace && allowBareJson ==>
        (r.Some? <==> t != "[DONE]") && (r.Some? ==> r.value == t)
  {
    var trimmed := Trim(line);
    if !LiveSseLine(trimmed, ignoreEventLines) then None
    else
      match SelectSsePayload(trimmed, allowDataNoSpace, allowBareJson)
      case None => None
      case Some(p) =>
        var p' := Trim(p);
        TrimIdempotent(p);
        if p' == "[DONE]" then None else Some(p')
  }

  /** The part of a live line that carries the payload: after `data: `,
      else (when allowed) after `data:`, else (when allowed) the whole line. */
  function SelectSsePayload(t: bytes, allowDataNoSpace: bool, allowBareJson: bool): (r: Option<bytes>)
    ensures StartsWith(t, "data: ") ==> r == Some(t[6..])
    ensures !StartsWith(t, "data: ") && allowDataNoSpace ==> r == if StartsWith(t, "data:") then Some(t[5..]) else None
    ensures !StartsWith(t, "data: ") && !allowDataNoSpace ==> r == if allowBareJson then Some(t) else None
  {
    if StartsWith(t, "data: ") then Some(t[6..])
    else if allowDataNoSpace then StripPrefix(t, "data:")
    else if allowBareJson then Some(t)
    else None
  }

  lemma TrimIdempotent(s: bytes)
    ensures Trim(Trim(s)) == Trim(s)
  {
    var t := Trim(s);
    assert LeadingWs(t) == 0;
    assert t[0..] == t;
  }

  /** A text that starts and ends with a non-whitespace byte is its own trim. */
  lemma TrimPlain(s: bytes)
    requires |s| > 0 && !IsTrimWs(s[0]) && !IsTrimWs(s[|s| - 1])
    ensures Trim(s) == s
  {
    assert LeadingWs(s) == 0;
    assert s[0..] == s;
  }

  /** A `data: ` line carrying an already trimmed payload gives that payload
      back, whatever the flags. */
  lemma DataLinePayload(p: bytes, allowDataNoSpace: bool, allowBareJson: bool, ignoreEventLines: bool)
    requires |p| > 0 && !IsTrimWs(p[0]) && !IsTrimWs(p[|p| - 1]) && p != "[DONE]"
    ensures ExtractSseDataPayload("data: " + p, allowDataNoSpace, allowBareJson, ignoreEventLines) == Some(p)
  {
    var line: bytes := "data: " + p;
    TrimPlain(line);
    TrimPlain(p);
    assert line[..6] == "data: " && line[6..] == p;
    assert line[0] == 'd' && LiveSseLine(line, ignoreEventLines);
    assert SelectSsePayload(line, allowDataNoSpace, allowBareJson) == Some(p);
  }

  // ---------------------------------------------------------------------
  // Integer parsing

  predicate AllDigits(d: bytes) { forall k | 0 <= k < |d| :: IsDigit(d[k]) }

  /** `str::parse::<u64>`: an optional `+`, then at least one decimal digit,
      with a value that fits in 64 bits. */
  function ParseU64(s: bytes): (r: Option<u64>)
    ensures r.Some? ==> |s| > 0
    ensures r.Some? && s[0] != '+' ==> AllDigits(s) && DecimalValue(s) == r.value
  {
    var d := if |s| > 0 && s[0] == '+' then s[1..] else s;
    if |d| > 0 && AllDigits(d) && DecimalValue(d) < U64_LIMIT then Some(DecimalValue(d) as u64) else None
  }

  /** The decimal text the writer produces parses back to its value. */
  lemma ParseU64Decimal(n: u64)
    ensures ParseU64(Decimal(n)) == Some(n)
  {
    DecimalRoundTrip(n);
  }
}
