/** Byte strings and the handful of byte-level searches the gateway uses
    (`memchr`, `memmem::find`, `starts_with`, ASCII trimming).

    A byte is written as a `char`, so that ASCII literals such as "data:" can
    be written directly. Every byte string of the gateway is such a sequence
    (with each element below 0x100); the properties proved here hold for every
    `char` sequence, so in particular for each of them. Rust `&[u8]` and `&str`
    are both modelled as `bytes`: lengths are byte lengths. */
module Bytes {
  import opened Wrappers

  type byte = char
  type bytes = seq<byte>

  predicate IsDigit(b: byte) { '0' <= b <= '9' }

  predicate IsAsciiAlpha(b: byte) { 'a' <= b <= 'z' || 'A' <= b <= 'Z' }

  predicate IsAsciiAlnum(b: byte) { IsDigit(b) || IsAsciiAlpha(b) }

  /** Rust's `u8::is_ascii_whitespace`: space, TAB, LF, FF and CR (not VT). */
  predicate IsAsciiWs(b: byte) {
    b == ' ' || b == '\t' || b == '\n' || b == '\r' || b as int == 0x0C
  }

  /** Whitespace as trimmed by Rust's `str::trim` for single-byte characters
      (TAB, LF, VT, FF, CR and space). */
  predicate IsTrimWs(b: byte) { 0x09 <= b as int <= 0x0D || b == ' ' }

  function AsciiLower(b: byte): (r: byte)
    ensures IsAsciiAlpha(b) ==> 'a' <= r <= 'z'
    ensures !('A' <= b <= 'Z') ==> r == b
  {
    if 'A' <= b <= 'Z' then (b as int + 32) as char else b
  }

  function Lower(s: bytes): (r: bytes)
    ensures |r| == |s|
    ensures forall i | 0 <= i < |s| :: r[i] == AsciiLower(s[i])
  {
    seq(|s|, i requires 0 <= i < |s| => AsciiLower(s[i]))
  }

  /** Equal up to ASCII case (`eq_ignore_ascii_case` byte by byte). */
  predicate EqIgnoreCase(a: bytes, b: bytes) {
    |a| == |b| && forall k | 0 <= k < |a| :: AsciiLower(a[k]) == AsciiLower(b[k])
  }

  predicate StartsWith(s: bytes, p: bytes) { |p| <= |s| && s[..|p|] == p }

  predicate EndsWith(s: bytes, p: bytes) { |p| <= |s| && s[|s| - |p|..] == p }

  /** `p` occurs in `s` at position `i`. */
  predicate MatchAt(s: bytes, p: bytes, i: nat) { i + |p| <= |s| && s[i..i + |p|] == p }

  /** First occurrence of `p` in `s` at or after `from` (`memmem::find` on a
      suffix). What it finds is stated by `FindFromSpec`. */
  function FindFrom(s: bytes, p: bytes, from: nat): Option<nat>
    decreases |s| - from
  {
    if from + |p| > |s| then None
    else if s[from..from + |p|] == p then Some(from)
    else FindFrom(s, p, from + 1)
  }

  /** `FindFrom` finds the first match at or after `from`, and finds nothing
      only when there is no such match. */
  lemma {:induction false} FindFromSpec(s: bytes, p: bytes, from: nat)
    ensures var r := FindFrom(s, p, from);
      && (r.Some? ==> from <= r.value && MatchAt(s, p, r.value))
      && (r.Some? ==> forall k | from <= k < r.value :: !MatchAt(s, p, k))
      && (r.None? ==> forall k | from <= k :: !MatchAt(s, p, k))
    decreases |s| - from
  {
    if from + |p| <= |s| && s[from..from + |p|] != p {
      FindFromSpec(s, p, from + 1);
    }
  }

  /** Only what `FindFrom` finds, without the absence of earlier matches. */
  lemma FindFromFound(s: bytes, p: bytes, from: nat)
    ensures FindFrom(s, p, from).Some? ==>
      from <= FindFrom(s, p, from).value && MatchAt(s, p, FindFrom(s, p, from).value)
  {
    FindFromSpec(s, p, from);
  }

  function Find(s: bytes, p: bytes): (r: Option<nat>)
    ensures r.Some? ==> MatchAt(s, p, r.value) && forall k: nat | k < r.value :: !MatchAt(s, p, k)
    ensures r.None? ==> forall k: nat :: !MatchAt(s, p, k)
  {
    FindFromSpec(s, p, 0);
    FindFrom(s, p, 0)
  }

  predicate Contains(s: bytes, p: bytes) { Find(s, p).Some? }

  /** Concatenation regrouped, for loops that accumulate a prefix. */
  lemma ConcatAssoc(a: bytes, b: bytes, c: bytes)
    ensures (a + b) + c == a + (b + c)
  {
  }

  /** Pushing JSON pieces one at a time after a head, then a tail, writes
      the head, the JSON they make up, and the tail. */
  lemma Pushed3(h: bytes, a: bytes, b: bytes, c: bytes, t: bytes)
    ensures [] + h + a + b + c + t == h + (a + b + c) + t
  {
    assert [] + h == h;
    ConcatAssoc(h, a, b);
    ConcatAssoc(h, a + b, c);
  }

  lemma Pushed5(h: bytes, a: bytes, b: bytes, c: bytes, d: bytes, f: bytes, t: bytes)
    ensures [] + h + a + b + c + d + f + t == h + (a + b + c + d + f) + t
  {
    Pushed3(h, a, b, c, []);
    assert [] + h + a + b + c == h + (a + b + c);
    ConcatAssoc(h, a + b + c, d);
    ConcatAssoc(h, a + b + c + d, f);
  }

  lemma Pushed7(h: bytes, a: bytes, b: bytes, c: bytes, d: bytes, f: bytes, g: bytes, k: bytes, t: bytes)
    ensures [] + h + a + b + c + d + f + g + k + t == h + (a + b + c + d + f + g + k) + t
  {
    Pushed5(h, a, b, c, d, f, []);
    assert [] + h + a + b + c + d + f == h + (a + b + c + d + f);
    ConcatAssoc(h, a + b + c + d + f, g);
    ConcatAssoc(h, a + b + c + d + f + g, k);
  }

  lemma Pushed9(h: bytes, a: bytes, b: bytes, c: bytes, d: bytes, f: bytes, g: bytes, k: bytes, l: bytes, m: bytes, t: bytes)
    ensures [] + h + a + b + c + d + f + g + k + l + m + t == h + (a + b + c + d + f + g + k + l + m) + t
  {
    Pushed7(h, a, b, c, d, f, g, k, []);
    assert [] + h + a + b + c + d + f + g + k == h + (a + b + c + d + f + g + k);
    ConcatAssoc(h, a + b + c + d + f + g + k, l);
    ConcatAssoc(h, a + b + c + d + f + g + k + l, m);
  }

  lemma ContainsIff(s: bytes, p: bytes)
    ensures Contains(s, p) <==> exists k: nat :: MatchAt(s, p, k)
  {
  }

  /** Where four pieces laid end to end start at `o`, each one is found at its offset. */
  lemma FourPieces(t: bytes, o: nat, a: bytes, b: bytes, c: bytes, d: bytes)
    requires o <= |t| && t[o..] == a + b + c + d
    ensures var i := o + |a|; var j := i + |b|; var k := j + |c|;
      && k <= |t| && t[o..i] == a && t[i..j] == b && t[j..k] == c && t[k..] == d
  {
    var i := o + |a|; var j := i + |b|; var k := j + |c|;
    var r := a + b + c + d;
    assert r[..|a|] == a;
    assert r[|a|..|a| + |b|] == b;
    assert r[|a| + |b|..|a| + |b| + |c|] == c;
    assert r[|a| + |b| + |c|..] == d;
    assert t[o..i] == t[o..][..|a|];
    assert t[i..j] == t[o..][|a|..|a| + |b|];
    assert t[j..k] == t[o..][|a| + |b|..|a| + |b| + |c|];
    assert t[k..] == t[o..][|a| + |b| + |c|..];
  }

  /** A piece placed between two others occurs in the whole. */
  lemma ContainsMiddle(pre: bytes, w: bytes, post: bytes)
    ensures Contains(pre + w + post, w)
  {
    var x := pre + w + post;
    assert x[|pre|..|pre| + |w|] == w;
    assert MatchAt(x, w, |pre|);
    ContainsIff(x, w);
  }

  /** Index of the first occurrence of byte `b` at or after `from` (`memchr`). */
  function FindByte(s: bytes, b: byte, from: nat): (r: Option<nat>)
    ensures r.Some? ==> from <= r.value < |s| && s[r.value] == b
    ensures r.Some? ==> forall k | from <= k < r.value :: s[k] != b
    ensures r.None? ==> forall k | from <= k < |s| :: s[k] != b
    decreases |s| - from
  {
    if from >= |s| then None
    else if s[from] == b then Some(from)
    else FindByte(s, b, from + 1)
  }

  predicate HasByte(s: bytes, b: byte) { exists k | 0 <= k < |s| :: s[k] == b }

  /** Length of the longest prefix of trim-whitespace. */
  function LeadingWs(s: bytes): (n: nat)
    ensures n <= |s|
    ensures forall k | 0 <= k < n :: IsTrimWs(s[k])
    ensures n == |s| || !IsTrimWs(s[n])
  {
    if |s| > 0 && IsTrimWs(s[0]) then 1 + LeadingWs(s[1..]) else 0
  }

  function TrimStart(s: bytes): (r: bytes)
    ensures |r| <= |s| && r == s[|s| - |r|..]
    ensures |r| == 0 || !IsTrimWs(r[0])
  {
    s[LeadingWs(s)..]
  }

  function TrimEnd(s: bytes): (r: bytes)
    ensures |r| <= |s| && r == s[..|r|]
    ensures |r| == 0 || !IsTrimWs(r[|r| - 1])
    ensures forall k | |r| <= k < |s| :: IsTrimWs(s[k])
  {
    if |s| > 0 && IsTrimWs(s[|s| - 1]) then TrimEnd(s[..|s| - 1]) else s
  }

  /** Rust's `str::trim`, restricted to single-byte whitespace. */
  function Trim(s: bytes): (r: bytes)
    ensures |r| <= |s|
    ensures |r| == 0 || (!IsTrimWs(r[0]) && !IsTrimWs(r[|r| - 1]))
  {
    TrimEnd(TrimStart(s))
  }

  /** `s.trim().is_empty()`: every byte is whitespace. */
  predicate Blank(s: bytes) { LeadingWs(s) == |s| }

  lemma BlankIsTrimEmpty(s: bytes)
    ensures Blank(s) <==> Trim(s) == []
  {
    var t := TrimStart(s);
    assert |t| == |s| - LeadingWs(s);
    assert |t| > 0 ==> !IsTrimWs(t[0]) && |TrimEnd(t)| > 0;
  }

  /** Replace every occurrence of `pat` by `rep`, scanning left to right
      (`str::replace`). */
  function ReplaceAll(s: bytes, pat: bytes, rep: bytes): (r: bytes)
    requires |pat| > 0
    decreases |s|
  {
    match Find(s, pat)
    case None => s
    case Some(k) => s[..k] + rep + ReplaceAll(s[k + |pat|..], pat, rep)
  }

  /** Wherever the pattern occurs, its replacement appears in the result. */
  lemma ReplaceAllInsertsReplacement(s: bytes, pat: bytes, rep: bytes)
    requires |pat| > 0 && Contains(s, pat)
    ensures Contains(ReplaceAll(s, pat, rep), rep)
  {
    var k := Find(s, pat).value;
    var r := ReplaceAll(s, pat, rep);
    var tail := ReplaceAll(s[k + |pat|..], pat, rep);
    assert r == s[..k] + rep + tail;
    assert r[k..k + |rep|] == rep;
    assert MatchAt(r, rep, k);
    ContainsIff(r, rep);
  }

  /** Replacing one pattern keeps every occurrence of another that no match
      of the pattern overlaps. */
  lemma {:induction false} ReplaceAllKeeps(s: bytes, pat: bytes, rep: bytes, q: bytes, k: nat)
    requires |pat| > 0 && MatchAt(s, q, k)
    requires forall m: nat | MatchAt(s, pat, m) :: m + |pat| <= k || k + |q| <= m
    ensures Contains(ReplaceAll(s, pat, rep), q)
    decreases |s|
  {
    match Find(s, pat)
    case None =>
      ContainsIff(s, q);
    case Some(j) =>
      var rest := s[j + |pat|..];
      ReplaceAllUnfold(s, pat, rep, j, rest);
      if k + |q| <= j {
        KeptBeforeMatch(s, j, rep, ReplaceAll(rest, pat, rep), q, k);
      } else {
        var k' := k - j - |pat|;
        KeptAfterMatch(s, pat, j, rest, q, k);
        ReplaceAllKeeps(rest, pat, rep, q, k');
        ContainsAfterPrefix(s[..j] + rep, ReplaceAll(rest, pat, rep), q);
      }
  }

  /** An occurrence that ends before position `j` survives a rewrite of
      everything from `j` on. */
  lemma KeptBeforeMatch(s: bytes, j: nat, mid: bytes, after: bytes, q: bytes, k: nat)
    requires j <= |s| && MatchAt(s, q, k) && k + |q| <= j
    ensures Contains(s[..j] + mid + after, q)
  {
    var r := s[..j] + mid + after;
    assert r[k..k + |q|] == s[k..k + |q|];
    assert MatchAt(r, q, k);
    ContainsIff(r, q);
  }

  /** An occurrence past the first match of `pat` lies in the rest of the
      text, and the rest's matches of `pat` are the text's, shifted. */
  lemma KeptAfterMatch(s: bytes, pat: bytes, j: nat, rest: bytes, q: bytes, k: nat)
    requires MatchAt(s, pat, j) && rest == s[j + |pat|..] && MatchAt(s, q, k)
    requires j + |pat| <= k
    requires forall m: nat | MatchAt(s, pat, m) :: m + |pat| <= k || k + |q| <= m
    ensures MatchAt(rest, q, k - j - |pat|)
    ensures forall m: nat | MatchAt(rest, pat, m) :: m + |pat| <= k - j - |pat| || k - j - |pat| + |q| <= m
  {
    var d := j + |pat|;
    assert rest[k - d..k - d + |q|] == s[k..k + |q|];
    forall m: nat | MatchAt(rest, pat, m) ensures m + |pat| <= k - d || k - d + |q| <= m {
      assert s[m + d..m + d + |pat|] == rest[m..m + |pat|];
      assert MatchAt(s, pat, m + d);
    }
  }

  /** Text that contains `q` still does behind any prefix. */
  lemma ContainsAfterPrefix(pre: bytes, tail: bytes, q: bytes)
    requires Contains(tail, q)
    ensures Contains(pre + tail, q)
  {
    ContainsIff(tail, q);
    var t: nat :| MatchAt(tail, q, t);
    var r := pre + tail;
    assert r[|pre| + t..|pre| + t + |q|] == tail[t..t + |q|];
    assert MatchAt(r, q, |pre| + t);
    ContainsIff(r, q);
  }

  /** Replacement skips a prefix in which no match starts. */
  lemma ReplaceAllPrefix(a: bytes, b: bytes, s: bytes, pat: bytes, rep: bytes)
    requires |pat| > 0 && s == a + b
    requires forall k: nat | k < |a| :: !MatchAt(s, pat, k)
    ensures ReplaceAll(s, pat, rep) == a + ReplaceAll(b, pat, rep)
  {
    FindShift(a, b, pat);
    if Find(b, pat).Some? {
      ReplaceAllShifted(a, b, s, pat, rep);
    }
  }

  lemma ReplaceAllShifted(a: bytes, b: bytes, s: bytes, pat: bytes, rep: bytes)
    requires |pat| > 0 && s == a + b && Find(b, pat).Some?
    requires Find(s, pat) == Some(|a| + Find(b, pat).value)
    ensures ReplaceAll(s, pat, rep) == a + ReplaceAll(b, pat, rep)
  {
    var r := Find(b, pat).value;
    var k := |a| + r;
    var t := b[r + |pat|..];
    assert s[k + |pat|..] == t;
    ReplaceAllUnfold(s, pat, rep, k, t);
    ReplaceAllUnfold(b, pat, rep, r, t);
    ConcatPrefix(a, b, s, r);
    Regroup(a, b[..r], rep, ReplaceAll(t, pat, rep), s[..k], ReplaceAll(s, pat, rep), ReplaceAll(b, pat, rep));
  }

  lemma ConcatPrefix(a: bytes, b: bytes, s: bytes, r: nat)
    requires s == a + b && r <= |b|
    ensures s[..|a| + r] == a + b[..r]
  {
  }

  lemma Regroup(w: bytes, x: bytes, y: bytes, z: bytes, wx: bytes, u: bytes, v: bytes)
    requires wx == w + x && u == wx + y + z && v == x + y + z
    ensures u == w + v
  {
  }

  lemma ReplaceAllUnfold(s: bytes, pat: bytes, rep: bytes, k: nat, t: bytes)
    requires |pat| > 0 && Find(s, pat) == Some(k) && t == s[k + |pat|..]
    ensures ReplaceAll(s, pat, rep) == s[..k] + rep + ReplaceAll(t, pat, rep)
  {
    assert Find(s, pat).value == k;
  }

  /** With no match starting in `a`, the first match in `a + b` is the
      first match in `b`, shifted. */
  lemma FindShift(a: bytes, b: bytes, pat: bytes)
    requires forall k: nat | k < |a| :: !MatchAt(a + b, pat, k)
    ensures Find(a + b, pat).Some? <==> Find(b, pat).Some?
    ensures Find(b, pat).Some? ==> Find(a + b, pat).value == |a| + Find(b, pat).value
  {
    var s := a + b;
    forall j: nat ensures MatchAt(b, pat, j) <==> MatchAt(s, pat, |a| + j) {
      assert j + |pat| <= |b| ==> s[|a| + j..|a| + j + |pat|] == b[j..j + |pat|];
    }
    if Find(s, pat).Some? {
      var k := Find(s, pat).value;
      assert MatchAt(b, pat, k - |a|);
    }
    if Find(b, pat).Some? {
      var r := Find(b, pat).value;
      assert MatchAt(s, pat, |a| + r);
    }
  }

  /** Replacement at the very start. */
  lemma ReplaceAllHead(pat: bytes, b: bytes, rep: bytes)
    requires |pat| > 0
    ensures ReplaceAll(pat + b, pat, rep) == rep + ReplaceAll(b, pat, rep)
  {
    assert (pat + b)[0..|pat|] == pat;
    assert MatchAt(pat + b, pat, 0);
    assert (pat + b)[|pat|..] == b;
  }

  /** Containment is transitive. */
  lemma ContainsTrans(a: bytes, b: bytes, c: bytes)
    requires Contains(a, b) && Contains(b, c)
    ensures Contains(a, c)
  {
    ContainsIff(a, b);
    ContainsIff(b, c);
    var i: nat :| MatchAt(a, b, i);
    var j: nat :| MatchAt(b, c, j);
    assert a[i..i + |b|] == b;
    assert forall x | i <= x < i + |b| :: a[x] == b[x - i];
    assert a[i + j..i + j + |c|] == b[j..j + |c|];
    assert MatchAt(a, c, i + j);
    ContainsIff(a, c);
  }

  /** Split at every occurrence of one byte (`str::split(char)`): k separators
      give k + 1 pieces. */
  function SplitOn(s: bytes, sep: byte): (r: seq<bytes>)
    ensures |r| >= 1
    ensures forall i | 0 <= i < |r| :: !HasByte(r[i], sep)
    decreases |s|
  {
    match FindByte(s, sep, 0)
    case None => [s]
    case Some(k) => [s[..k]] + SplitOn(s[k + 1..], sep)
  }

  /** The inverse of `SplitOn`. */
  function JoinWith(parts: seq<bytes>, sep: byte): bytes {
    if |parts| == 0 then []
    else if |parts| == 1 then parts[0]
    else parts[0] + [sep] + JoinWith(parts[1..], sep)
  }

  lemma {:induction false} JoinSplit(s: bytes, sep: byte)
    ensures JoinWith(SplitOn(s, sep), sep) == s
    decreases |s|
  {
    match FindByte(s, sep, 0)
    case None =>
    case Some(k) =>
      var rest := s[k + 1..];
      var parts, tail := SplitOn(s, sep), SplitOn(rest, sep);
      JoinSplit(rest, sep);
      assert parts == [s[..k]] + tail;
      assert parts[0] == s[..k] && parts[1..] == tail && |parts| > 1;
      assert JoinWith(parts, sep) == s[..k] + [sep] + JoinWith(tail, sep);
      assert s == s[..k] + [sep] + rest;
  }

  /** Joining with one more part appends a separator and the part. */
  lemma {:induction false} JoinWithSnoc(parts: seq<bytes>, x: bytes, sep: byte)
    ensures JoinWith(parts + [x], sep) == JoinWith(parts, sep) + (if |parts| > 0 then [sep] else []) + x
    decreases |parts|
  {
    if |parts| > 1 {
      JoinWithSnoc(parts[1..], x, sep);
      assert (parts + [x])[1..] == parts[1..] + [x];
    } else if |parts| == 1 {
      assert (parts + [x])[1..] == [x];
    }
  }

  /** `body.get(range)`: the bytes of a range when it lies inside the body. */
  function Slice(body: bytes, range: (nat, nat)): (r: Option<bytes>)
    ensures r.Some? <==> range.0 <= range.1 <= |body|
    ensures r.Some? ==> |r.value| == range.1 - range.0
  {
    if range.0 <= range.1 <= |body| then Some(body[range.0..range.1]) else None
  }
}
