/** Cursor-based scanning of RFC 8259 JSON text (objects section 4, arrays
    section 5, numbers section 6, strings section 7) without building a tree.

    Every scanner exists twice: a recursive function that is its
    specification (`WsEnd`, `StringEnd`, `ValueEnd`, ...) and the loop that
    the gateway runs (`SkipWs`, `ParseStringEnd`, `ParseValueEnd`, ...),
    proved equal to it. A Rust `Result<usize, ()>` is an `Option<nat>`. */
module JsonScan {
  import opened Wrappers
  import opened Bytes

  predicate IsJsonWs(b: byte) { b == ' ' || b == '\n' || b == '\r' || b == '\t' }

  predicate IsControl(b: byte) { b as int < 0x20 }

  // ---------------------------------------------------------------------
  // Whitespace

  /** The first index at or after `i` that is not JSON whitespace. */
  function WsEnd(s: bytes, i: nat): (j: nat)
    ensures i <= j
    ensures i <= |s| ==> j <= |s|
    ensures i >= |s| ==> j == i
    ensures j < |s| ==> !IsJsonWs(s[j])
    decreases |s| - i
  {
    if i < |s| && IsJsonWs(s[i]) then WsEnd(s, i + 1) else i
  }

  /** Everything skipped is JSON whitespace, so `WsEnd` is the first
      non-whitespace index. */
  lemma {:induction false} WsEndSkipsOnlyWs(s: bytes, i: nat)
    ensures forall k | i <= k < WsEnd(s, i) :: k < |s| && IsJsonWs(s[k])
    decreases |s| - i
  {
    if i < |s| && IsJsonWs(s[i]) {
      WsEndSkipsOnlyWs(s, i + 1);
    }
  }

  /** Skipping is idempotent. */
  lemma WsEndIdempotent(s: bytes, i: nat)
    ensures WsEnd(s, WsEnd(s, i)) == WsEnd(s, i)
  {
  }

  method SkipWs(s: bytes, i0: nat) returns (i: nat)
    ensures i == WsEnd(s, i0)
  {
    i := i0;
    while i < |s| && IsJsonWs(s[i])
      invariant WsEnd(s, i) == WsEnd(s, i0)
      decreases |s| - i
    {
      i := i + 1;
    }
  }

  // ---------------------------------------------------------------------
  // Strings

  /** The body of a string literal: unescaped bytes other than `"`, `\` and
      control bytes, or a backslash followed by any one byte. */
  predicate EscapedBody(t: bytes)
    decreases |t|
  {
    |t| == 0
    || (t[0] == '\\' && |t| >= 2 && EscapedBody(t[2..]))
    || (t[0] != '"' && t[0] != '\\' && !IsControl(t[0]) && EscapedBody(t[1..]))
  }

  /** The string-scanning loop, started just after the opening quote. */
  function StringScan(s: bytes, i: nat): (r: Option<nat>)
    ensures r.Some? ==> i < r.value <= |s| && s[r.value - 1] == '"'
    decreases |s| - i
  {
    if i >= |s| then None
    else if s[i] == '"' then Some(i + 1)
    else if s[i] == '\\' then (if i + 1 >= |s| then None else StringScan(s, i + 2))
    else if IsControl(s[i]) then None
    else StringScan(s, i + 1)
  }

  /** End (one past the closing quote) of the string literal at `start`. */
  function StringEnd(s: bytes, start: nat): (r: Option<nat>)
    ensures r.Some? ==> start < |s| && s[start] == '"'
    ensures r.Some? ==> start + 2 <= r.value <= |s| && s[r.value - 1] == '"'
  {
    if start >= |s| || s[start] != '"' then None else StringScan(s, start + 1)
  }

  lemma {:induction false} StringScanExact(s: bytes, i: nat, q: nat)
    requires i <= q < |s|
    ensures StringScan(s, i) == Some(q + 1) <==> (EscapedBody(s[i..q]) && s[q] == '"')
    decreases |s| - i
  {
    if s[i] == '"' {
      if q > i { assert s[i..q][0] == '"'; }
    } else if s[i] == '\\' {
      if q == i + 1 {
        assert s[i..q] == ['\\'];
      } else if q >= i + 2 {
        StringScanExact(s, i + 2, q);
        assert s[i..q][2..] == s[i + 2..q];
      }
    } else if IsControl(s[i]) {
      if q > i { assert s[i..q][0] == s[i]; }
    } else {
      if q > i {
        StringScanExact(s, i + 1, q);
        assert s[i..q][1..] == s[i + 1..q];
      }
    }
  }

  /** A string ends exactly after the first unescaped quote: the scanner
      succeeds with `e` iff the bytes between the quotes form a valid body.
      In particular a backslash always consumes the next byte, and an
      unescaped control byte or a missing closing quote is an error. */
  lemma StringEndExact(s: bytes, start: nat, e: nat)
    ensures StringEnd(s, start) == Some(e) <==>
      (start < |s| && s[start] == '"' && start + 2 <= e <= |s| && s[e - 1] == '"'
       && EscapedBody(s[start + 1..e - 1]))
  {
    if start < |s| && s[start] == '"' && start + 2 <= e <= |s| {
      StringScanExact(s, start + 1, e - 1);
    }
  }

  method ParseStringEnd(s: bytes, start: nat) returns (r: Option<nat>)
    ensures r == StringEnd(s, start)
  {
    if start >= |s| || s[start] != '"' {
      return None;
    }
    var i := start + 1;
    while i < |s|
      invariant start < i <= |s| + 1
      invariant StringScan(s, i) == StringEnd(s, start)
      decreases |s| - i
    {
      if s[i] == '"' {
        return Some(i + 1);
      } else if s[i] == '\\' {
        i := i + 1;
        if i >= |s| {
          return None;
        }
        i := i + 1;
      } else if IsControl(s[i]) {
        return None;
      } else {
        i := i + 1;
      }
    }
    return None;
  }

  // ---------------------------------------------------------------------
  // Literals and numbers

  function LiteralEnd(s: bytes, start: nat, lit: bytes): (r: Option<nat>)
    ensures r.Some? <==> MatchAt(s, lit, start)
    ensures r.Some? ==> r.value == start + |lit|
  {
    if start + |lit| <= |s| && s[start..start + |lit|] == lit then Some(start + |lit|) else None
  }

  method ConsumeLiteral(s: bytes, start: nat, lit: bytes) returns (r: Option<nat>)
    ensures r == LiteralEnd(s, start, lit)
  {
    var end := start + |lit|;
    if end <= |s| && s[start..end] == lit {
      return Some(end);
    }
    return None;
  }

  /** End of the maximal run of ASCII digits starting at `i`. */
  function DigitsEnd(s: bytes, i: nat): (j: nat)
    requires i <= |s|
    ensures i <= j <= |s|
    ensures j == |s| || !IsDigit(s[j])
    decreases |s| - i
  {
    if i < |s| && IsDigit(s[i]) then DigitsEnd(s, i + 1) else i
  }

  lemma {:induction false} DigitsEndAllDigits(s: bytes, i: nat)
    requires i <= |s|
    ensures forall k | i <= k < DigitsEnd(s, i) :: IsDigit(s[k])
    decreases |s| - i
  {
    if i < |s| && IsDigit(s[i]) {
      DigitsEndAllDigits(s, i + 1);
    }
  }

  /** The digit loop that `parse_json_number_end` runs three times. */
  method ScanDigits(s: bytes, i0: nat) returns (i: nat)
    requires i0 <= |s|
    ensures i == DigitsEnd(s, i0)
  {
    i := i0;
    while i < |s| && IsDigit(s[i])
      invariant i <= |s| && DigitsEnd(s, i) == DigitsEnd(s, i0)
      decreases |s| - i
    {
      i := i + 1;
    }
  }

  /** The optional fraction after the integer part ends at `i`. */
  function FractionEnd(s: bytes, i: nat): (r: Option<nat>)
    requires i <= |s|
    ensures r.Some? ==> i <= r.value <= |s|
  {
    if i < |s| && s[i] == '.' then
      if i + 1 >= |s| || !IsDigit(s[i + 1]) then None else Some(DigitsEnd(s, i + 1))
    else Some(i)
  }

  function SignEnd(s: bytes, i: nat): (j: nat)
    requires i <= |s|
    ensures i <= j <= |s|
  {
    if i < |s| && (s[i] == '+' || s[i] == '-') then i + 1 else i
  }

  /** The optional exponent starting at `i`. */
  function ExponentEnd(s: bytes, i: nat): (r: Option<nat>)
    requires i <= |s|
    ensures r.Some? ==> i <= r.value <= |s|
  {
    if i < |s| && (s[i] == 'e' || s[i] == 'E') then
      var j := SignEnd(s, i + 1);
      if j >= |s| || !IsDigit(s[j]) then None else Some(DigitsEnd(s, j))
    else Some(i)
  }

  function NumberEnd(s: bytes, start: nat): (r: Option<nat>)
    ensures r.Some? ==> start < r.value <= |s|
  {
    var i := if start < |s| && s[start] == '-' then start + 1 else start;
    if i >= |s| then None
    else if !IsDigit(s[i]) then None
    else
      match FractionEnd(s, IntEnd(s, i))
      case None => None
      case Some(f) => ExponentEnd(s, f)
  }


  /** An accepted number token is made of number bytes, starts with a
      minus sign or a digit, and every `.` and every exponent mark in it is
      followed (after an optional sign) by at least one digit inside the
      token. */
  /** The integer part: one `0`, or a non-zero digit and more digits. */
  function IntEnd(s: bytes, i: nat): (j: nat)
    requires i < |s| && IsDigit(s[i])
    ensures i < j <= |s|
  {
    if s[i] == '0' then i + 1 else DigitsEnd(s, i + 1)
  }

  lemma FractionToken(s: bytes, i: nat)
    requires i <= |s| && FractionEnd(s, i).Some?
    ensures var f := FractionEnd(s, i).value;
      (f == i || (s[i] == '.' && i + 1 < f))
      && forall k | i < k < f :: IsDigit(s[k])
  {
    if i < |s| && s[i] == '.' {
      DigitsEndAllDigits(s, i + 1);
    }
  }

  lemma ExponentToken(s: bytes, i: nat)
    requires i <= |s| && ExponentEnd(s, i).Some?
    ensures var e := ExponentEnd(s, i).value;
      e == i
      || ((s[i] == 'e' || s[i] == 'E') && i + 1 < e
          && (IsDigit(s[i + 1]) || ((s[i + 1] == '+' || s[i + 1] == '-') && i + 2 < e))
          && forall k | i + 2 <= k < e :: IsDigit(s[k]))
  {
    if i < |s| && (s[i] == 'e' || s[i] == 'E') {
      DigitsEndAllDigits(s, SignEnd(s, i + 1));
    }
  }

  /** An accepted number token starts with a minus sign or a digit, its
      integer part has no leading zero followed by digits, and every `.`
      and exponent mark in it is followed (after an optional sign) by at
      least one digit inside the token. */
  lemma NumberToken(s: bytes, start: nat)
    requires NumberEnd(s, start).Some?
    ensures var i := if s[start] == '-' then start + 1 else start;
      i < |s| && IsDigit(s[i])
      && var n := IntEnd(s, i);
      (forall k | i <= k < n :: IsDigit(s[k]))
      && (s[i] == '0' ==> n == i + 1)
      && FractionEnd(s, n).Some?
      && NumberEnd(s, start) == ExponentEnd(s, FractionEnd(s, n).value)
  {
    var i := if s[start] == '-' then start + 1 else start;
    if s[i] != '0' {
      DigitsEndAllDigits(s, i + 1);
    }
  }

  /** A `.` or an exponent mark directly after the integer part that is not
      followed by a digit makes the whole number an error. */
  lemma NumberDanglingMarkRejected(s: bytes, start: nat, intEnd: nat)
    requires start < |s| && IsDigit(s[start]) && s[start] != '0'
    requires intEnd == DigitsEnd(s, start + 1) && intEnd + 1 <= |s|
    requires s[intEnd] == '.' || s[intEnd] == 'e' || s[intEnd] == 'E'
    requires intEnd + 1 == |s| || (!IsDigit(s[intEnd + 1]) && s[intEnd + 1] != '+' && s[intEnd + 1] != '-')
    ensures NumberEnd(s, start) == None
  {
  }

  method ParseNumberEnd(s: bytes, start: nat) returns (r: Option<nat>)
    ensures r == NumberEnd(s, start)
  {
    var i := start;
    if i < |s| && s[i] == '-' {
      i := i + 1;
    }
    if i >= |s| || !IsDigit(s[i]) {
      return None;
    }
    if s[i] == '0' {
      i := i + 1;
    } else {
      i := ScanDigits(s, i + 1);
    }
    var f := ScanFraction(s, i);
    if f.None? {
      return None;
    }
    r := ScanExponent(s, f.value);
  }

  /** The `.` branch of `parse_json_number_end`. */
  method ScanFraction(s: bytes, i0: nat) returns (r: Option<nat>)
    requires i0 <= |s|
    ensures r == FractionEnd(s, i0)
  {
    var i := i0;
    if i < |s| && s[i] == '.' {
      i := i + 1;
      if i >= |s| || !IsDigit(s[i]) {
        return None;
      }
      i := ScanDigits(s, i);
    }
    return Some(i);
  }

  /** The exponent branch of `parse_json_number_end`. */
  method ScanExponent(s: bytes, i0: nat) returns (r: Option<nat>)
    requires i0 <= |s|
    ensures r == ExponentEnd(s, i0)
  {
    var i := i0;
    if i < |s| && (s[i] == 'e' || s[i] == 'E') {
      i := i + 1;
      if i < |s| && (s[i] == '+' || s[i] == '-') {
        i := i + 1;
      }
      if i >= |s| || !IsDigit(s[i]) {
        return None;
      }
      i := ScanDigits(s, i);
    }
    return Some(i);
  }

  // ---------------------------------------------------------------------
  // Values, objects and arrays

  /** End of the value that starts at the first non-whitespace byte at or
      after `start`. */
  function ValueEnd(s: bytes, start: nat): (r: Option<nat>)
    ensures r.Some? ==> WsEnd(s, start) < r.value <= |s|
    decreases |s| - start, 2
  {
    var i := WsEnd(s, start);
    if i >= |s| then None
    else if s[i] == '"' then StringEnd(s, i)
    else if s[i] == '{' then ObjectEnd(s, i)
    else if s[i] == '[' then ArrayEnd(s, i)
    else if s[i] == 't' then LiteralEnd(s, i, "true")
    else if s[i] == 'f' then LiteralEnd(s, i, "false")
    else if s[i] == 'n' then LiteralEnd(s, i, "null")
    else if s[i] == '-' || IsDigit(s[i]) then NumberEnd(s, i)
    else None
  }

  function ObjectEnd(s: bytes, start: nat): (r: Option<nat>)
    ensures r.Some? ==> start < r.value <= |s| && s[r.value - 1] == '}'
    decreases |s| - start, 1
  {
    if start >= |s| || s[start] != '{' then None else ObjectLoop(s, start + 1)
  }

  /** One `"key": value` pair of an object: the key's bytes without quotes
      are `[keyStart, keyEnd)` and the value, without surrounding
      whitespace, is `[valueStart, valueEnd)`. */
  datatype Member = Member(keyStart: nat, keyEnd: nat, valueStart: nat, valueEnd: nat)

  predicate InBounds(s: bytes, m: Member) {
    0 < m.keyStart <= m.keyEnd < m.valueStart < m.valueEnd <= |s|
  }

  /** The member whose key string starts at `j`, and the index of the first
      non-whitespace byte after its value. */
  function MemberAt(s: bytes, j: nat): (r: Option<(Member, nat)>)
    ensures r.Some? ==> r.value.0.keyStart == j + 1 && InBounds(s, r.value.0)
    ensures r.Some? ==> r.value.0.valueEnd <= r.value.1 <= |s|
    decreases |s| - j, 3
  {
    match StringEnd(s, j)
    case None => None
    case Some(k) =>
      var c := WsEnd(s, k);
      if c >= |s| || s[c] != ':' then None
      else
        var valueStart := WsEnd(s, c + 1);
        match ValueEnd(s, valueStart)
        case None => None
        case Some(v) => Some((Member(j + 1, k - 1, valueStart, v), WsEnd(s, v)))
  }

  /** The object loop, entered after `{` or after a `,`. */
  function ObjectLoop(s: bytes, i: nat): (r: Option<nat>)
    requires i <= |s|
    ensures r.Some? ==> i < r.value <= |s| && s[r.value - 1] == '}'
    decreases |s| - i + 1, 0
  {
    var j := WsEnd(s, i);
    if j >= |s| then None
    else if s[j] == '}' then Some(j + 1)
    else if s[j] != '"' then None
    else match MemberAt(s, j)
      case None => None
      case Some((_, d)) =>
        if d >= |s| then None
        else if s[d] == ',' then ObjectLoop(s, d + 1)
        else if s[d] == '}' then Some(d + 1)
        else None
  }

  function ArrayEnd(s: bytes, start: nat): (r: Option<nat>)
    ensures r.Some? ==> start < r.value <= |s| && s[r.value - 1] == ']'
    decreases |s| - start, 1
  {
    if start >= |s| || s[start] != '[' then None else ArrayLoop(s, start + 1)
  }

  /** The array loop, entered after `[` or after a `,`. */
  function ArrayLoop(s: bytes, i: nat): (r: Option<nat>)
    requires i <= |s|
    ensures r.Some? ==> i < r.value <= |s| && s[r.value - 1] == ']'
    decreases |s| - i + 1, 0
  {
    var j := WsEnd(s, i);
    if j >= |s| then None
    else if s[j] == ']' then Some(j + 1)
    else match ValueEnd(s, j)
      case None => None
      case Some(v) =>
        var d := WsEnd(s, v);
        if d >= |s| then None
        else if s[d] == ',' then ArrayLoop(s, d + 1)
        else if s[d] == ']' then Some(d + 1)
        else None
  }

  /** A value that opens with a bracket or a quote ends exactly after the
      matching closing byte. */
  lemma ValueEndCloses(s: bytes, start: nat)
    requires ValueEnd(s, start).Some?
    ensures var i := WsEnd(s, start);
      var e := ValueEnd(s, start).value;
      (s[i] == '{' ==> s[e - 1] == '}')
      && (s[i] == '[' ==> s[e - 1] == ']')
      && (s[i] == '"' ==> s[e - 1] == '"' && StringEnd(s, i) == Some(e))
  {
  }

  /** A literal is accepted only when the whole word is present. */
  lemma LiteralValue(s: bytes, start: nat)
    requires WsEnd(s, start) < |s| && s[WsEnd(s, start)] in "tfn"
    ensures var i := WsEnd(s, start);
      var lit := if s[i] == 't' then "true" else if s[i] == 'f' then "false" else "null";
      ValueEnd(s, start) == (if MatchAt(s, lit, i) then Some(i + |lit|) else None)
  {
  }

  /** Skipping whitespace before a value changes nothing. */
  lemma ValueEndSkipsWs(s: bytes, start: nat)
    ensures ValueEnd(s, start) == ValueEnd(s, WsEnd(s, start))
  {
    WsEndIdempotent(s, start);
  }

  /** `MemberAt` once the key, the colon and the value are known. */
  lemma MemberAtParts(s: bytes, j: nat, k: nat, c: nat, valueStart: nat, valueEnd: Option<nat>)
    requires StringEnd(s, j) == Some(k) && c == WsEnd(s, k) && c < |s| && s[c] == ':'
    requires valueStart == WsEnd(s, c + 1) && valueEnd == ValueEnd(s, valueStart)
    ensures valueEnd.None? ==> MemberAt(s, j).None?
    ensures valueEnd.Some? ==> MemberAt(s, j) == Some((Member(j + 1, k - 1, valueStart, valueEnd.value), WsEnd(s, valueEnd.value)))
  {
  }

  method ParseValueEnd(s: bytes, start: nat) returns (r: Option<nat>)
    ensures r == ValueEnd(s, start)
    decreases |s| - start, 2
  {
    var i := SkipWs(s, start);
    if i >= |s| {
      return None;
    }
    var b := s[i];
    if b == '"' {
      r := ParseStringEnd(s, i);
    } else if b == '{' {
      r := ParseObjectEnd(s, i);
    } else if b == '[' {
      r := ParseArrayEnd(s, i);
    } else if b == 't' {
      r := ConsumeLiteral(s, i, "true");
    } else if b == 'f' {
      r := ConsumeLiteral(s, i, "false");
    } else if b == 'n' {
      r := ConsumeLiteral(s, i, "null");
    } else if b == '-' || IsDigit(b) {
      r := ParseNumberEnd(s, i);
    } else {
      r := None;
    }
  }

  /** Scans the member whose key string starts at `j`, the way both object
      loops do inline: key string, whitespace, `:`, value, whitespace. */
  method ParseMember(s: bytes, j: nat) returns (r: Option<(Member, nat)>)
    ensures r == MemberAt(s, j)
    decreases |s| - j, 3
  {
    var keyEnd := ParseStringEnd(s, j);
    if keyEnd.None? {
      return None;
    }
    var c := SkipWs(s, keyEnd.value);
    if c >= |s| || s[c] != ':' {
      return None;
    }
    var valueStart := SkipWs(s, c + 1);
    var valueEnd := ParseValueEnd(s, valueStart);
    MemberAtParts(s, j, keyEnd.value, c, valueStart, valueEnd);
    if valueEnd.None? {
      return None;
    }
    var d := SkipWs(s, valueEnd.value);
    r := Some((Member(j + 1, keyEnd.value - 1, valueStart, valueEnd.value), d));
  }

  /** The object loop entered at `i` before it reads a member. */
  lemma ObjectLoopStart(s: bytes, i: nat, j: nat)
    requires i <= |s| && j == WsEnd(s, i)
    ensures j >= |s| ==> ObjectLoop(s, i).None?
    ensures j < |s| && s[j] == '}' ==> ObjectLoop(s, i) == Some(j + 1)
    ensures j < |s| && s[j] != '}' && s[j] != '"' ==> ObjectLoop(s, i).None?
    ensures j < |s| && s[j] == '"' && MemberAt(s, j).None? ==> ObjectLoop(s, i).None?
  {
  }

  /** The object loop entered at `i` once it has read a member and the
      whitespace after it, up to `d`. */
  lemma ObjectLoopStep(s: bytes, i: nat, j: nat, d: nat)
    requires i <= |s| && j == WsEnd(s, i) && j < |s| && s[j] == '"'
    requires MemberAt(s, j).Some? && MemberAt(s, j).value.1 == d
    ensures d >= |s| ==> ObjectLoop(s, i).None?
    ensures d < |s| && s[d] == ',' ==> ObjectLoop(s, i) == ObjectLoop(s, d + 1)
    ensures d < |s| && s[d] == '}' ==> ObjectLoop(s, i) == Some(d + 1)
    ensures d < |s| && s[d] != ',' && s[d] != '}' ==> ObjectLoop(s, i).None?
  {
  }

  method ParseObjectEnd(s: bytes, start: nat) returns (r: Option<nat>)
    ensures r == ObjectEnd(s, start)
    decreases |s| - start, 1
  {
    if start >= |s| || s[start] != '{' {
      return None;
    }
    var i := start + 1;
    ghost var target := ObjectEnd(s, start);
    while true
      invariant start < i <= |s|
      invariant ObjectLoop(s, i) == target
      decreases |s| - i
    {
      var j := SkipWs(s, i);
      ObjectLoopStart(s, i, j);
      if j >= |s| {
        return None;
      }
      if s[j] == '}' {
        return Some(j + 1);
      } else if s[j] != '"' {
        return None;
      }
      var member := ParseMember(s, j);
      if member.None? {
        return None;
      }
      var d := member.value.1;
      ObjectLoopStep(s, i, j, d);
      if d >= |s| {
        return None;
      }
      if s[d] == ',' {
        i := d + 1;
      } else if s[d] == '}' {
        return Some(d + 1);
      } else {
        return None;
      }
    }
  }

  /** The array loop entered at `i` before it reads a value. */
  lemma ArrayLoopStart(s: bytes, i: nat, j: nat)
    requires i <= |s| && j == WsEnd(s, i)
    ensures j >= |s| ==> ArrayLoop(s, i).None?
    ensures j < |s| && s[j] == ']' ==> ArrayLoop(s, i) == Some(j + 1)
    ensures j < |s| && s[j] != ']' && ValueEnd(s, j).None? ==> ArrayLoop(s, i).None?
  {
  }

  /** The array loop entered at `i` once it has read the value ending at `v`. */
  lemma ArrayLoopStep(s: bytes, i: nat, j: nat, v: nat, d: nat)
    requires i <= |s| && j == WsEnd(s, i) && j < |s| && s[j] != ']'
    requires ValueEnd(s, j) == Some(v) && d == WsEnd(s, v)
    ensures d >= |s| ==> ArrayLoop(s, i).None?
    ensures d < |s| && s[d] == ',' ==> ArrayLoop(s, i) == ArrayLoop(s, d + 1)
    ensures d < |s| && s[d] == ']' ==> ArrayLoop(s, i) == Some(d + 1)
    ensures d < |s| && s[d] != ',' && s[d] != ']' ==> ArrayLoop(s, i).None?
  {
  }

  method ParseArrayEnd(s: bytes, start: nat) returns (r: Option<nat>)
    ensures r == ArrayEnd(s, start)
    decreases |s| - start, 1
  {
    if start >= |s| || s[start] != '[' {
      return None;
    }
    var i := start + 1;
    ghost var target := ArrayEnd(s, start);
    while true
      invariant start < i <= |s|
      invariant ArrayLoop(s, i) == target
      decreases |s| - i
    {
      var j := SkipWs(s, i);
      ArrayLoopStart(s, i, j);
      if j >= |s| {
        return None;
      }
      if s[j] == ']' {
        return Some(j + 1);
      }
      var v := ParseValueEnd(s, j);
      if v.None? {
        return None;
      }
      var d := SkipWs(s, v.value);
      ArrayLoopStep(s, i, j, v.value, d);
      if d >= |s| {
        return None;
      }
      if s[d] == ',' {
        i := d + 1;
      } else if s[d] == ']' {
        return Some(d + 1);
      } else {
        return None;
      }
    }
  }

  // ---------------------------------------------------------------------
  // Top-level members of an object

  /** `m` is a string key followed by a complete value that starts at a
      non-whitespace byte. */
  predicate WellFormedMember(s: bytes, m: Member) {
    InBounds(s, m)
    && s[m.keyStart - 1] == '"'
    && StringEnd(s, m.keyStart - 1) == Some(m.keyEnd + 1)
    && ValueEnd(s, m.valueStart) == Some(m.valueEnd)
    && !IsJsonWs(s[m.valueStart])
  }

  /** The members of the object whose loop is entered at `i` (after `{` or
      `,`), in order; None when the object is malformed. */
  function MembersFrom(s: bytes, i: nat): (r: Option<seq<Member>>)
    requires i <= |s|
    ensures r.Some? ==> forall n | 0 <= n < |r.value| :: InBounds(s, r.value[n])
    decreases |s| - i
  {
    var j := WsEnd(s, i);
    if j >= |s| then None
    else if s[j] == '}' then Some([])
    else if s[j] != '"' then None
    else match MemberAt(s, j)
      case None => None
      case Some((m, d)) =>
        if d >= |s| then None
        else if s[d] == ',' then
          match MembersFrom(s, d + 1)
          case None => None
          case Some(rest) => Some([m] + rest)
        else if s[d] == '}' then Some([m])
        else None
  }

  /** The top-level members of the object that `s` starts with (after
      optional whitespace). */
  function TopLevelMembers(s: bytes): (r: Option<seq<Member>>)
    ensures r.Some? ==> forall n | 0 <= n < |r.value| :: InBounds(s, r.value[n])
  {
    var i := WsEnd(s, 0);
    if i >= |s| || s[i] != '{' then None else MembersFrom(s, i + 1)
  }

  function KeyOf(s: bytes, m: Member): bytes
    requires InBounds(s, m)
  {
    s[m.keyStart..m.keyEnd]
  }

  /** A member found by `MemberAt` is well formed. */
  lemma MemberAtWellFormed(s: bytes, j: nat)
    requires MemberAt(s, j).Some?
    ensures WellFormedMember(s, MemberAt(s, j).value.0)
  {
    var k := StringEnd(s, j).value;
    var c := WsEnd(s, k);
    ValueEndSkipsWs(s, c + 1);
    WsEndIdempotent(s, c + 1);
  }

  /** Every member found is a well-formed key followed by a value. */
  lemma {:induction false} MembersWellFormed(s: bytes, i: nat)
    requires i <= |s| && MembersFrom(s, i).Some?
    ensures var ms := MembersFrom(s, i).value;
      forall n | 0 <= n < |ms| :: WellFormedMember(s, ms[n])
    decreases |s| - i
  {
    var ms := MembersFrom(s, i).value;
    var j := WsEnd(s, i);
    if s[j] == '"' {
      var (m, d) := MemberAt(s, j).value;
      MemberAtWellFormed(s, j);
      MembersFromStep(s, i, j, m, d);
      if s[d] == ',' {
        var rest := MembersFrom(s, d + 1).value;
        MembersWellFormed(s, d + 1);
        assert ms == [m] + rest;
      } else {
        assert ms == [m];
      }
    }
  }

  /** The members appear left to right without overlapping, after the
      point where the loop was entered, so a key nested inside some value
      is never a member. */
  lemma {:induction false} MembersInOrder(s: bytes, i: nat)
    requires i <= |s| && MembersFrom(s, i).Some?
    ensures var ms := MembersFrom(s, i).value;
      (forall n | 0 <= n < |ms| :: i < ms[n].keyStart)
      && (forall n | 0 <= n < |ms| - 1 :: ms[n].valueEnd < ms[n + 1].keyStart)
    decreases |s| - i
  {
    var ms := MembersFrom(s, i).value;
    var j := WsEnd(s, i);
    if s[j] == '"' {
      var (m, d) := MemberAt(s, j).value;
      MembersFromStep(s, i, j, m, d);
      if s[d] == ',' {
        var rest := MembersFrom(s, d + 1).value;
        MembersInOrder(s, d + 1);
        assert ms == [m] + rest;
      } else {
        assert ms == [m];
      }
    }
  }

  /** The match after scanning `ms` left to right, starting from `acc`. */
  function MatchFrom(s: bytes, ms: seq<Member>, field: bytes, acc: Option<(nat, nat)>): Option<(nat, nat)>
    requires forall n | 0 <= n < |ms| :: InBounds(s, ms[n])
    decreases |ms|
  {
    if |ms| == 0 then acc
    else MatchFrom(s, ms[1..], field,
                   if KeyOf(s, ms[0]) == field then Some((ms[0].valueStart, ms[0].valueEnd)) else acc)
  }

  /** Scanning `ms` ends on the value of the last member whose key is
      `field`, or keeps `acc` when no member has that key. */
  lemma {:induction false} MatchFromIsLast(s: bytes, ms: seq<Member>, field: bytes, acc: Option<(nat, nat)>)
    requires forall n | 0 <= n < |ms| :: InBounds(s, ms[n])
    ensures var r := MatchFrom(s, ms, field, acc);
      (r == acc && forall n | 0 <= n < |ms| :: KeyOf(s, ms[n]) != field)
      || (exists n | 0 <= n < |ms| ::
            KeyOf(s, ms[n]) == field && r == Some((ms[n].valueStart, ms[n].valueEnd))
            && forall n2 | n < n2 < |ms| :: KeyOf(s, ms[n2]) != field)
    decreases |ms|
  {
    if |ms| > 0 {
      var rest := ms[1..];
      var acc' := if KeyOf(s, ms[0]) == field then Some((ms[0].valueStart, ms[0].valueEnd)) else acc;
      MatchFromIsLast(s, rest, field, acc');
      var r := MatchFrom(s, ms, field, acc);
      assert r == MatchFrom(s, rest, field, acc');
      if r == acc' && forall n | 0 <= n < |rest| :: KeyOf(s, rest[n]) != field {
        assert forall n2 | 0 < n2 < |ms| :: KeyOf(s, ms[n2]) != field by {
          forall n2 | 0 < n2 < |ms| ensures KeyOf(s, ms[n2]) != field {
            assert ms[n2] == rest[n2 - 1];
          }
        }
      } else {
        var n :| 0 <= n < |rest| && KeyOf(s, rest[n]) == field
          && r == Some((rest[n].valueStart, rest[n].valueEnd))
          && forall n2 | n < n2 < |rest| :: KeyOf(s, rest[n2]) != field;
        assert ms[n + 1] == rest[n];
        assert forall n2 | n + 1 < n2 < |ms| :: KeyOf(s, ms[n2]) != field by {
          forall n2 | n + 1 < n2 < |ms| ensures KeyOf(s, ms[n2]) != field {
            assert ms[n2] == rest[n2 - 1];
          }
        }
      }
    }
  }

  /** `find_top_level_field_value_range`, specified on the member list. */
  function TopLevelFieldRange(s: bytes, field: bytes): Option<Option<(nat, nat)>> {
    match TopLevelMembers(s)
    case None => None
    case Some(ms) => Some(MatchFrom(s, ms, field, None))
  }

  /** The search fails unless the first non-whitespace byte opens an object. */
  lemma FieldRangeNeedsObject(s: bytes, field: bytes)
    requires WsEnd(s, 0) >= |s| || s[WsEnd(s, 0)] != '{'
    ensures TopLevelFieldRange(s, field) == None
  {
  }

  /** A found range is the exact value of a top-level member whose key is
      `field`, and no later top-level member has that key; nothing is found
      exactly when no top-level member has the key. */
  lemma FieldRangeIsLastMember(s: bytes, field: bytes)
    requires TopLevelFieldRange(s, field).Some?
    ensures var ms := TopLevelMembers(s).value;
      var r := TopLevelFieldRange(s, field).value;
      (forall n | 0 <= n < |ms| :: WellFormedMember(s, ms[n]))
      && (r.Some? ==> exists n | 0 <= n < |ms| ::
         KeyOf(s, ms[n]) == field && r.value == (ms[n].valueStart, ms[n].valueEnd)
         && forall n2 | n < n2 < |ms| :: KeyOf(s, ms[n2]) != field)
      && (r.None? <==> forall n | 0 <= n < |ms| :: KeyOf(s, ms[n]) != field)
  {
    var ms := TopLevelMembers(s).value;
    MembersWellFormed(s, WsEnd(s, 0) + 1);
    MatchFromIsLast(s, ms, field, None);
  }

  /** One member of the loop: the member list entered at `i` is `m`
      followed by whatever comes after the separator at `d`. */
  lemma MembersFromStep(s: bytes, i: nat, j: nat, m: Member, d: nat)
    requires i <= |s| && j == WsEnd(s, i) && j < |s| && s[j] == '"'
    requires MemberAt(s, j) == Some((m, d)) && d < |s|
    ensures MembersFrom(s, i) ==
      if s[d] == ',' then
        match MembersFrom(s, d + 1)
        case None => None
        case Some(rest) => Some([m] + rest)
      else if s[d] == '}' then Some([m])
      else None
  {
  }

  /** What the member loop entered at `i` returns when it has matched `acc` so far. */
  ghost function LoopResult(s: bytes, i: nat, field: bytes, acc: Option<(nat, nat)>): Option<Option<(nat, nat)>>
    requires i <= |s|
  {
    match MembersFrom(s, i)
    case None => None
    case Some(rest) => Some(MatchFrom(s, rest, field, acc))
  }

  lemma LoopResultStep(s: bytes, i: nat, field: bytes, acc: Option<(nat, nat)>, acc': Option<(nat, nat)>,
                       j: nat, m: Member, d: nat)
    requires i <= |s| && j == WsEnd(s, i) && j < |s| && s[j] == '"'
    requires MemberAt(s, j) == Some((m, d)) && d < |s|
    requires acc' == if KeyOf(s, m) == field then Some((m.valueStart, m.valueEnd)) else acc
    ensures s[d] == ',' ==> LoopResult(s, i, field, acc) == LoopResult(s, d + 1, field, acc')
    ensures s[d] == '}' ==> LoopResult(s, i, field, acc) == Some(acc')
    ensures s[d] != ',' && s[d] != '}' ==> LoopResult(s, i, field, acc) == None
  {
    MembersFromStep(s, i, j, m, d);
    if s[d] == ',' && MembersFrom(s, d + 1).Some? {
      var rest := MembersFrom(s, d + 1).value;
      assert ([m] + rest)[0] == m && ([m] + rest)[1..] == rest;
    } else if s[d] == '}' {
      assert [m][0] == m && [m][1..] == [];
      assert MatchFrom(s, [m], field, acc) == MatchFrom(s, [], field, acc');
    }
  }

  /** The ways the member loop entered at `i` stops without reading a
      further member. */
  lemma LoopResultExit(s: bytes, i: nat, field: bytes, acc: Option<(nat, nat)>, j: nat)
    requires i <= |s| && j == WsEnd(s, i)
    ensures j >= |s| || (s[j] != '}' && s[j] != '"') ==> LoopResult(s, i, field, acc) == None
    ensures j < |s| && s[j] == '}' ==> LoopResult(s, i, field, acc) == Some(acc)
    ensures j < |s| && s[j] == '"' && (MemberAt(s, j).None? || MemberAt(s, j).value.1 >= |s|) ==>
              LoopResult(s, i, field, acc) == None
  {
  }

  /** The search is the member loop entered just after the opening brace. */
  lemma TopLevelIsLoop(s: bytes, field: bytes)
    requires WsEnd(s, 0) < |s| && s[WsEnd(s, 0)] == '{'
    ensures TopLevelFieldRange(s, field) == LoopResult(s, WsEnd(s, 0) + 1, field, None)
  {
  }

  method FindTopLevelFieldValueRange(s: bytes, field: bytes) returns (r: Option<Option<(nat, nat)>>)
    ensures r == TopLevelFieldRange(s, field)
  {
    var i := SkipWs(s, 0);
    if i >= |s| || s[i] != '{' {
      FieldRangeNeedsObject(s, field);
      return None;
    }
    TopLevelIsLoop(s, field);
    i := i + 1;
    var lastMatch: Option<(nat, nat)> := None;
    ghost var target := TopLevelFieldRange(s, field);
    while true
      invariant i <= |s|
      invariant LoopResult(s, i, field, lastMatch) == target
      decreases |s| - i
    {
      var j := SkipWs(s, i);
      LoopResultExit(s, i, field, lastMatch, j);
      if j >= |s| || (s[j] != '}' && s[j] != '"') {
        assert target == None;
        return None;
      }
      if s[j] == '}' {
        assert target == Some(lastMatch);
        return Some(lastMatch);
      }
      var member := ParseMember(s, j);
      if member.None? {
        assert target == None;
        return None;
      }
      var m, d := member.value.0, member.value.1;
      if d >= |s| {
        assert target == None;
        return None;
      }
      ghost var previous := lastMatch;
      if KeyOf(s, m) == field {
        lastMatch := Some((m.valueStart, m.valueEnd));
      }
      LoopResultStep(s, i, field, previous, lastMatch, j, m, d);
      if s[d] == ',' {
        i := d + 1;
      } else if s[d] == '}' {
        assert target == Some(lastMatch);
        return Some(lastMatch);
      } else {
        assert target == None;
        return None;
      }
    }
  }
}
